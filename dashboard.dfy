/** The rules inside dashboard.js: the referral-code codec and its input
    check, the pending-Robux total, the id batching of the referral list, and
    the dashboard's user/balance caches with the withdraw button's guard. */
module Dashboard {
  import opened Text
  import opened Messages

  // ---------------------------------------------------------------------------
  // Referral codes: bijective base-24 numeration over 24 letters (no I, no O)

  const Alphabet: string := "ABCDEFGHJKLMNPQRSTUVWXYZ"

  /** The letters are strictly increasing, hence pairwise distinct; there
      are 24 of them, the numeration's base. */
  lemma AlphabetIncreasing()
    ensures |Alphabet| == 24
    ensures forall i, j :: 0 <= i < j < 24 ==> Alphabet[i] < Alphabet[j]
  {
  }

  /** Position of the first `c` in `s` (`alphabet.indexOf(c)`). */
  function FirstIndex(s: string, c: char): (i: nat)
    requires c in s
    ensures i < |s| && s[i] == c
    ensures forall j :: 0 <= j < i ==> s[j] != c
  {
    if s[0] == c then 0 else 1 + FirstIndex(s[1..], c)
  }

  /** Membership in the alphabet, letter by letter: A to Z without I and O. */
  predicate InAlphabet(c: char)
  {
    'A' <= c <= 'Z' && c != 'I' && c != 'O'
  }

  lemma InAlphabetIff(c: char)
    ensures InAlphabet(c) <==> c in Alphabet
  {
  }

  function Index(c: char): (i: nat)
    requires InAlphabet(c)
    ensures i < 24 && Alphabet[i] == c
  {
    AlphabetIncreasing();
    InAlphabetIff(c);
    FirstIndex(Alphabet, c)
  }

  lemma IndexOfLetter(k: nat)
    requires k < 24
    ensures InAlphabet(Alphabet[k]) && Index(Alphabet[k]) == k
  {
    AlphabetIncreasing();
    InAlphabetIff(Alphabet[k]);
  }

  predicate OverAlphabet(s: string)
  {
    forall i :: 0 <= i < |s| ==> InAlphabet(s[i])
  }

  /** The bijective base-24 digits of m: empty for 0. */
  function Enc(m: nat): string
  {
    if m == 0 then "" else Enc((m - 1) / 24) + [Alphabet[(m - 1) % 24]]
  }

  /** The number a string of letters denotes, most significant first. */
  function Val(s: string): nat
    requires OverAlphabet(s)
  {
    if s == [] then 0 else Val(s[..|s| - 1]) * 24 + Index(s[|s| - 1]) + 1
  }

  /** What `userIdToReferralCode` returns for `parseInt(userId)` (`None` for
      NaN): nothing for NaN or a negative id. */
  function Code(num: Option<int>): string
  {
    if num.None? || num.value < 0 then "" else Enc(num.value + 1)
  }

  /** What `referralCodeToUserId` returns: null when a character lies
      outside the alphabet, else the denoted number minus one. */
  function Decode(code: string): Option<int>
  {
    if OverAlphabet(code) then Some(Val(code) - 1) else None
  }

  /** `userIdToReferralCode`: id 0 is answered directly; otherwise the id
      plus one is written digit by digit, least significant first. */
  method UserIdToReferralCode(num: Option<int>) returns (code: string)
    ensures code == Code(num)
  {
    if num == Some(0) {
      assert Enc(1) == "A";
      return "A";
    }
    if num.None? {
      return "";
    }
    var n := num.value + 1;
    code := "";
    while n > 0
      invariant num.value >= 0 ==> n >= 0 && Enc(num.value + 1) == Enc(n) + code
      invariant num.value < 0 ==> n <= 0 && code == ""
      decreases n
    {
      var k := n - 1;
      EncPrepend(n, k / 24, Alphabet[k % 24], code, Enc(num.value + 1));
      code := [Alphabet[k % 24]] + code;
      n := k / 24;
    }
  }

  /** The first pass of `referralCodeToUserId`: every character must be
      found in the alphabet. */
  method OnlyAlphabet(code: string) returns (ok: bool)
    ensures ok == OverAlphabet(code)
  {
    for i := 0 to |code|
      invariant OverAlphabet(code[..i])
    {
      InAlphabetIff(code[i]);
      if code[i] !in Alphabet {
        assert !InAlphabet(code[i]);
        return false;
      }
      assert code[..i + 1] == code[..i] + [code[i]];
    }
    assert code[..|code|] == code;
    return true;
  }

  /** `referralCodeToUserId`: reject any foreign character, then accumulate
      the digits left to right. */
  method ReferralCodeToUserId(code: string) returns (r: Option<int>)
    ensures r == Decode(code)
  {
    var ok := OnlyAlphabet(code);
    if !ok {
      return None;
    }
    var result := 0;
    for i := 0 to |code|
      invariant result == Val(code[..i])
    {
      ValStep(code, i);
      result := result * 24 + Index(code[i]) + 1;
    }
    assert result == Val(code) by { assert code[..|code|] == code; }
    return Some(result - 1);
  }

  /** Reading one more letter: the value so far times 24, plus the
      letter's digit plus one. */
  lemma ValStep(code: string, i: nat)
    requires OverAlphabet(code) && i < |code|
    ensures OverAlphabet(code[..i]) && OverAlphabet(code[..i + 1])
    ensures Val(code[..i + 1]) == Val(code[..i]) * 24 + Index(code[i]) + 1
  {
    assert code[..i + 1][..i] == code[..i];
  }

  /** Every code is spelled with the alphabet's letters. */
  lemma {:induction false} EncOverAlphabet(m: nat)
    ensures OverAlphabet(Enc(m))
    ensures m > 0 <==> Enc(m) != []
  {
    if m > 0 {
      EncOverAlphabet((m - 1) / 24);
    }
  }

  /** A non-negative id gets a non-empty code over the alphabet; id 0 gets
      "A"; NaN and negative ids get the empty code. */
  lemma CodeShape(num: Option<int>)
    ensures num.Some? && num.value >= 0 ==> Code(num) != [] && OverAlphabet(Code(num))
    ensures num == Some(0) ==> Code(num) == "A"
    ensures num.None? || num.value < 0 ==> Code(num) == []
  {
    if num.Some? && num.value >= 0 {
      EncOverAlphabet(num.value + 1);
    }
  }

  /** Reading the digits back gives the number. */
  lemma {:induction false} ValEnc(m: nat)
    ensures OverAlphabet(Enc(m)) && Val(Enc(m)) == m
  {
    EncOverAlphabet(m);
    if m > 0 {
      var q, d := (m - 1) / 24, (m - 1) % 24;
      ValEnc(q);
      var s := Enc(m);
      assert s[..|s| - 1] == Enc(q);
      IndexOfLetter(d);
    }
  }

  /** Quotient and remainder of a number written as q*24 + r. */
  lemma DivMod24(q: nat, r: nat)
    requires r < 24
    ensures (q * 24 + r) / 24 == q && (q * 24 + r) % 24 == r
  {
  }

  /** One step of the numeration: the last digit and the rest. */
  lemma EncStep(m: nat)
    requires m > 0
    ensures Enc(m) == Enc((m - 1) / 24) + [Alphabet[(m - 1) % 24]]
  {
  }

  /** One turn of the encoding loop: the last digit moves from the number
      to the front of the code. */
  lemma EncPrepend(m: nat, q: nat, c: char, code: string, target: string)
    requires m > 0 && q == (m - 1) / 24 && c == Alphabet[(m - 1) % 24]
    requires target == Enc(m) + code
    ensures target == Enc(q) + ([c] + code)
  {
    EncStep(m);
    Regroup(Enc(q), [c], code);
  }

  /** Concatenation regrouped. */
  lemma Regroup(head: string, digit: string, code: string)
    ensures (head + digit) + code == head + (digit + code)
  {
  }

  /** Writing the number of a string of letters gives the string back. */
  lemma {:induction false} EncVal(s: string)
    requires OverAlphabet(s)
    ensures Enc(Val(s)) == s
  {
    if s != [] {
      var init, c := s[..|s| - 1], s[|s| - 1];
      assert OverAlphabet(init);
      EncVal(init);
      var v, d := Val(init), Index(c);
      var m := Val(s);
      assert m == v * 24 + d + 1;
      DivMod24(v, d);
      assert (m - 1) / 24 == v && (m - 1) % 24 == d;
      EncStep(m);
      assert s == init + [c];
    }
  }

  lemma ValPositive(s: string)
    requires s != [] && OverAlphabet(s)
    ensures Val(s) >= 1 && Decode(s) == Some(Val(s) - 1)
  {
  }

  /** Round trip: decoding the code of any id n >= 0 gives n. */
  lemma CodeRoundTrip(n: int)
    requires n >= 0
    ensures Decode(Code(Some(n))) == Some(n)
  {
    var s := Code(Some(n));
    assert s == Enc(n + 1);
    ValEnc(n + 1);
    assert Val(s) == n + 1;
  }

  /** Bijection: a non-empty string over the alphabet decodes to an id
      n >= 0 whose code is that string. */
  lemma DecodeRoundTrip(s: string)
    requires s != [] && OverAlphabet(s)
    ensures Decode(s).Some? && Decode(s).value >= 0
    ensures Code(Decode(s)) == s
  {
    var m := DecodeWitness(s);
    CodeOfEnc(Decode(s), m, s);
  }

  /** The number a decodable string denotes, with both facts about it. */
  lemma DecodeWitness(s: string) returns (m: nat)
    requires s != [] && OverAlphabet(s)
    ensures m >= 1 && Decode(s) == Some(m - 1) && Enc(m) == s
  {
    m := Val(s);
    assert m >= 1 && Decode(s) == Some(m - 1) by { ValPositive(s); }
    assert Enc(m) == s by { EncVal(s); }
  }

  /** The code of the id before m is the numeral of m. */
  lemma CodeOfEnc(d: Option<int>, m: nat, s: string)
    requires m >= 1 && d == Some(m - 1) && Enc(m) == s
    ensures Code(d) == s
  {
  }

  /** Decoding answers null exactly when some character is foreign, and
      the empty code decodes to -1. */
  lemma DecodeRejects(code: string)
    ensures Decode(code).None? <==> exists i :: 0 <= i < |code| && code[i] !in Alphabet
    ensures Decode([]) == Some(-1)
  {
    if Decode(code).None? {
      var i :| 0 <= i < |code| && !InAlphabet(code[i]);
      InAlphabetIff(code[i]);
    } else {
      forall i | 0 <= i < |code|
        ensures code[i] in Alphabet
      {
        InAlphabetIff(code[i]);
      }
    }
  }

  /** `validateReferralCode`: empty or blank input is acceptable; otherwise
      the upper-cased code must decode to an id >= 0. */
  function ValidateReferralCode(code: string): (ok: bool)
    ensures Trim(code) == [] ==> ok
  {
    if code == [] || Trim(code) == [] then true
    else
      var id := Decode(ToUpper(code));
      id.Some? && id.value >= 0
  }

  /** A non-blank code is valid exactly when its upper-cased form is spelled
      with the alphabet's letters only. */
  lemma ValidateIff(code: string)
    requires Trim(code) != []
    ensures ValidateReferralCode(code) <==> OverAlphabet(ToUpper(code))
  {
    var u := ToUpper(code);
    assert u != [];
    if OverAlphabet(u) {
      DecodeRoundTrip(u);
    }
  }

  /** What the referral field's `input` handler does with the typed text:
      clear, flag an invalid code, flag the user's own code, or accept the
      id the code names. */
  datatype InputVerdict = Cleared | Invalid | OwnCode | Accepted(referredId: int)

  /** The handler, for the field's text and the signed-in user's id (`None`
      when the user lookup failed): the text is trimmed and upper-cased
      before it is judged. */
  function OnReferralInput(value: string, currentUserId: Option<int>): (v: InputVerdict)
    ensures v.Cleared? <==> Trim(value) == []
    ensures v.Invalid? <==> Trim(value) != [] && !OverAlphabet(ToUpper(Trim(value)))
    ensures v.OwnCode? ==> currentUserId.Some? &&
                           Decode(ToUpper(Trim(value))) == Some(currentUserId.value)
    ensures v.Accepted? ==> v.referredId >= 0 &&
                            Code(Some(v.referredId)) == ToUpper(Trim(value)) &&
                            Some(v.referredId) != currentUserId
  {
    var t := Trim(value);
    var code := ToUpper(t);
    if code == [] then Cleared
    else
      UpperNonBlank(t);
      UpperIdempotent(t);
      ValidateIff(code);
      if !ValidateReferralCode(code) then Invalid
      else
        DecodeRoundTrip(code);
        var referred := Decode(code).value;
        if currentUserId.Some? && referred == currentUserId.value then OwnCode
        else Accepted(referred)
  }

  /** The start button is disabled exactly for an invalid code or the
      user's own code. */
  predicate StartDisabled(v: InputVerdict)
  {
    v.Invalid? || v.OwnCode?
  }

  /** A code naming the signed-in user is always refused, and disables the
      start button. */
  lemma OwnCodeRefused(value: string, me: int)
    requires me >= 0 && ToUpper(Trim(value)) == Code(Some(me))
    ensures OnReferralInput(value, Some(me)) == OwnCode
    ensures StartDisabled(OnReferralInput(value, Some(me)))
  {
    CodeShape(Some(me));
    CodeRoundTrip(me);
  }

  /** Typing someone else's code (in any letter case, with surrounding
      blanks) is accepted and names that user. */
  lemma OtherCodeAccepted(value: string, other: int, me: Option<int>)
    requires other >= 0 && ToUpper(Trim(value)) == Code(Some(other)) && me != Some(other)
    ensures OnReferralInput(value, me) == Accepted(other)
  {
    CodeShape(Some(other));
    CodeRoundTrip(other);
  }

  // ---------------------------------------------------------------------------
  // Pending Robux of purchases under manual review

  /** An item of the manual-review answer. */
  datatype ReviewItem = ReviewItem(price: int, withdrawPercent: int)

  /** `Math.floor(cashback * 0.7)` for `cashback = price * withdrawPercent / 100`,
      counted only when the cashback reaches 2. */
  function Contribution(item: ReviewItem): int
  {
    var c100 := item.price * item.withdrawPercent;  // 100 times the cashback
    if c100 >= 200 then (7 * c100) / 1000 else 0
  }

  function PendingSum(items: seq<ReviewItem>): int
  {
    if items == [] then 0 else PendingSum(items[..|items| - 1]) + Contribution(items[|items| - 1])
  }

  /** The `forEach` that accumulates `totalPendingRobux`. */
  method PendingRobux(items: seq<ReviewItem>) returns (total: int)
    ensures total == PendingSum(items)
  {
    total := 0;
    for i := 0 to |items|
      invariant total == PendingSum(items[..i])
    {
      assert items[..i + 1][..i] == items[..i];
      var cashback100 := items[i].price * items[i].withdrawPercent;
      if cashback100 >= 200 {
        total := total + (7 * cashback100) / 1000;
      }
    }
    assert items[..|items|] == items;
  }

  /** A counted item adds at least one Robux; the others add nothing. */
  lemma ContributionBounds(item: ReviewItem)
    ensures item.price * item.withdrawPercent >= 200 ==> Contribution(item) >= 1
    ensures item.price * item.withdrawPercent < 200 ==> Contribution(item) == 0
  {
  }

  /** The pending notice appears (total > 0) exactly when some item's
      cashback reaches 2. */
  lemma {:induction false} PendingPositiveIff(items: seq<ReviewItem>)
    ensures PendingSum(items) >= 0
    ensures PendingSum(items) > 0 <==>
            exists i :: 0 <= i < |items| && items[i].price * items[i].withdrawPercent >= 200
  {
    if items != [] {
      var init, last := items[..|items| - 1], items[|items| - 1];
      PendingPositiveIff(init);
      ContributionBounds(last);
      if exists i :: 0 <= i < |init| && init[i].price * init[i].withdrawPercent >= 200 {
        var i :| 0 <= i < |init| && init[i].price * init[i].withdrawPercent >= 200;
        assert items[i] == init[i];
      }
      if exists i :: 0 <= i < |items| && items[i].price * items[i].withdrawPercent >= 200 {
        var i :| 0 <= i < |items| && items[i].price * items[i].withdrawPercent >= 200;
        if i < |init| {
          assert init[i] == items[i];
        }
      }
    }
  }

  // ---------------------------------------------------------------------------
  // Batching the referral list's user ids

  function Flatten<T>(batches: seq<seq<T>>): seq<T>
  {
    if batches == [] then [] else Flatten(batches[..|batches| - 1]) + batches[|batches| - 1]
  }

  /** `for (i = 0; i < ids.length; i += size) batches.push(ids.slice(i, i + size))`:
      consecutive chunks, all full except perhaps the last, that put back
      together give the list. */
  method Batches<T>(ids: seq<T>, size: nat) returns (batches: seq<seq<T>>)
    requires size > 0
    ensures Flatten(batches) == ids
    ensures forall k :: 0 <= k < |batches| ==> 0 < |batches[k]| <= size
    ensures forall k :: 0 <= k < |batches| - 1 ==> |batches[k]| == size
  {
    batches := [];
    var i := 0;
    while i < |ids|
      invariant 0 <= i <= |ids|
      invariant Flatten(batches) == ids[..i]
      invariant forall k :: 0 <= k < |batches| ==> 0 < |batches[k]| <= size
      invariant forall k :: 0 <= k < |batches| - 1 ==> |batches[k]| == size
      invariant i < |ids| ==> forall k :: 0 <= k < |batches| ==> |batches[k]| == size
      decreases |ids| - i
    {
      var end := if i + size <= |ids| then i + size else |ids|;
      var old_batches := batches;
      batches := batches + [ids[i..end]];
      assert batches[..|batches| - 1] == old_batches;
      assert ids[..end] == ids[..i] + ids[i..end];
      i := end;
    }
    assert ids[..|ids|] == ids;
  }

  /** `fetchUserData` asks the users endpoint 100 ids at a time. */
  method UserDataBatches(ids: seq<int>) returns (batches: seq<seq<int>>)
    ensures Flatten(batches) == ids
    ensures forall k :: 0 <= k < |batches| ==> 0 < |batches[k]| <= 100
  {
    batches := Batches(ids, 100);
  }

  /** `fetchAvatarThumbnails` asks the thumbnails endpoint 90 ids at a time. */
  method ThumbnailBatches(ids: seq<int>) returns (batches: seq<seq<int>>)
    ensures Flatten(batches) == ids
    ensures forall k :: 0 <= k < |batches| ==> 0 < |batches[k]| <= 90
  {
    batches := Batches(ids, 90);
  }

  // ---------------------------------------------------------------------------
  // The dashboard's caches and the withdraw button

  datatype User = User(id: int, name: string)

  /** The authenticated-user request: status 401, another non-ok status, a
      thrown error, or the user. */
  datatype UserReply = Unauthorized | UserNotOk | UserFailed | UserOk(user: User)

  /** `getBalance`: the `GET_BALANCE` answer's balance when it reports
      success (`None` otherwise), else 0. */
  function BalanceOf(answer: Option<int>): (b: int)
    ensures answer.None? ==> b == 0
    ensures answer.Some? ==> b == answer.value
  {
    if answer.Some? then answer.value else 0
  }

  /** What a click on the withdraw button leads to. */
  datatype WithdrawStep =
    | Ignored                   // withdrawals are switched off by the announcement
    | BelowMinimum              // "errorMinWithdrawal" is shown
    | Failed(message: string)   // the user lookup failed
    | Initiate(gamepassPrice: int)

  /** The cached user after `getAuthenticatedUser`: the one already cached,
      else the one the request returned, if any. */
  function UserAfterLookup(cached: Option<User>, reply: UserReply): Option<User>
  {
    if cached.Some? then cached else if reply.UserOk? then Some(reply.user) else None
  }

  /** Whether the page has been sent to login after `getAuthenticatedUser`:
      only a request, made when no user is cached, that answers 401 sends it. */
  predicate RedirectAfterLookup(cached: Option<User>, redirected: bool, reply: UserReply)
  {
    redirected || (cached.None? && reply.Unauthorized?)
  }

  class DashboardState {
    /** `cachedBalance`, `null` until the balance is first fetched. */
    var cachedBalance: Option<int>
    /** `cachedUserData`. */
    var cachedUserData: Option<User>
    /** Whether the page was sent to the login page. */
    var redirectedToLogin: bool

    constructor()
      ensures cachedBalance.None? && cachedUserData.None? && !redirectedToLogin
    {
      cachedBalance := None;
      cachedUserData := None;
      redirectedToLogin := false;
    }

    /** `getAuthenticatedUser`: the cached user if there is one (no request);
        otherwise the request's user, which is cached; a 401 also sends the
        page to the login page. */
    method GetAuthenticatedUser(reply: UserReply) returns (user: Option<User>)
      modifies this
      ensures old(cachedUserData).Some? ==> user == old(cachedUserData) && unchanged(this)
      ensures old(cachedUserData).None? ==>
                user == (if reply.UserOk? then Some(reply.user) else None) &&
                redirectedToLogin == (old(redirectedToLogin) || reply.Unauthorized?)
      ensures cachedUserData == (if old(cachedUserData).Some? then old(cachedUserData) else user)
      ensures cachedBalance == old(cachedBalance)
    {
      if cachedUserData.Some? {
        return cachedUserData;
      }
      match reply {
        case Unauthorized =>
          redirectedToLogin := true;
          user := None;
        case UserNotOk =>
          user := None;
        case UserFailed =>
          user := None;
        case UserOk(u) =>
          cachedUserData := Some(u);
          user := cachedUserData;
      }
    }

    /** `refreshBalance`: with a user, the fetched balance becomes the cached
        one. */
    method RefreshBalance(reply: UserReply, answer: Option<int>)
      modifies this
      ensures cachedUserData == UserAfterLookup(old(cachedUserData), reply)
      ensures redirectedToLogin == RedirectAfterLookup(old(cachedUserData), old(redirectedToLogin), reply)
      ensures cachedUserData.Some? ==> cachedBalance == Some(BalanceOf(answer))
      ensures cachedUserData.None? ==> cachedBalance == old(cachedBalance)
    {
      var user := GetAuthenticatedUser(reply);
      if user.Some? {
        cachedBalance := Some(BalanceOf(answer));
      }
    }

    /** The withdraw button's click handler up to the dispatch of
        `roearn:initiateWithdrawal`: refuse while withdrawals are off, refuse
        a cached balance below 4 (a missing one counts as 0), look the user
        up, and refuse a freshly fetched balance below 1. */
    method OnWithdrawClick(catalogue: Catalogue, withdrawalsOff: bool, reply: UserReply, answer: Option<int>)
      returns (step: WithdrawStep)
      modifies this
      ensures withdrawalsOff ==> step == Ignored
      ensures !withdrawalsOff && (old(cachedBalance).None? || old(cachedBalance).value < 4) ==>
                step == BelowMinimum
      ensures step.Initiate? ==> !withdrawalsOff && old(cachedBalance).Some? &&
                                 old(cachedBalance).value >= 4 && cachedUserData.Some? &&
                                 step.gamepassPrice == BalanceOf(answer) && step.gamepassPrice >= 1
      ensures step.Failed? ==>
                step.message == Localized(catalogue, "errorDiscordSupport", Many(["695"])) &&
                cachedUserData.None?
      ensures !withdrawalsOff && old(cachedBalance).Some? && old(cachedBalance).value >= 4 ==>
                (old(cachedUserData).None? && !reply.UserOk? ==> step.Failed?) &&
                (old(cachedUserData).Some? || reply.UserOk? ==>
                   (BalanceOf(answer) >= 1 ==> step == Initiate(BalanceOf(answer))) &&
                   (BalanceOf(answer) < 1 ==> step == BelowMinimum))
      ensures cachedBalance == old(cachedBalance)
      ensures !withdrawalsOff && old(cachedBalance).Some? && old(cachedBalance).value >= 4 ==>
                cachedUserData == UserAfterLookup(old(cachedUserData), reply) &&
                redirectedToLogin == RedirectAfterLookup(old(cachedUserData), old(redirectedToLogin), reply)
      ensures withdrawalsOff || old(cachedBalance).None? || old(cachedBalance).value < 4 ==>
                cachedUserData == old(cachedUserData) && redirectedToLogin == old(redirectedToLogin)
    {
      if withdrawalsOff {
        return Ignored;
      }
      var shown := if cachedBalance.Some? then cachedBalance.value else 0;
      if shown < 4 {
        return BelowMinimum;
      }
      var user := GetAuthenticatedUser(reply);
      if user.None? {
        return Failed(Localized(catalogue, "errorDiscordSupport", Many(["695"])));
      }
      var balance := BalanceOf(answer);
      if balance < 1 {
        return BelowMinimum;
      }
      return Initiate(balance);
    }
  }
}
