/** update-check.js: at most one update request every 30 minutes, throttled
    through the `lastUpdateCheck` timestamp kept in local storage. */
module UpdateCheck {
  import opened Text

  /** `CHECK_INTERVAL`: 30 minutes in milliseconds. */
  const CheckInterval: int := 30 * 60 * 1000

  /** `Number(s)` for the stored text: a plain run of digits reads as its
      value, anything else as NaN (`None`). */
  function StoredNumber(s: string): (r: Option<nat>)
    ensures r.Some? <==> s != [] && AllDigits(s)
  {
    if s != [] && AllDigits(s) then Some(DecimalValue(s)) else None
  }

  /** The throttle test: no stored timestamp (or an empty one) sends a
      check, and so does a timestamp more than the interval in the past; a
      NaN difference compares false. */
  predicate ShouldCheck(lastCheck: Option<string>, now: nat) {
    lastCheck.None? || lastCheck.value == [] ||
    (StoredNumber(lastCheck.value).Some? && now - StoredNumber(lastCheck.value).value > CheckInterval)
  }

  /** The page's local storage, reduced to the one key this script uses. */
  class Throttle {
    var lastUpdateCheck: Option<string>

    constructor(stored: Option<string>)
      ensures lastUpdateCheck == stored
    {
      lastUpdateCheck := stored;
    }

    /** One page load at time `now`: when a check is due the timestamp is
        stored (as its decimal text) and the request is sent; otherwise
        storage is left alone. */
    method Run(now: nat) returns (sent: bool)
      modifies this
      ensures sent == ShouldCheck(old(lastUpdateCheck), now)
      ensures sent ==> lastUpdateCheck == Some(Decimal(now))
      ensures !sent ==> lastUpdateCheck == old(lastUpdateCheck)
    {
      sent := ShouldCheck(lastUpdateCheck, now);
      if sent {
        lastUpdateCheck := Some(Decimal(now));
      }
    }
  }

  /** The stored timestamp reads back as the time it was written. */
  lemma StoredRoundTrip(t: nat)
    ensures StoredNumber(Decimal(t)) == Some(t)
  {
    DecimalRoundTrip(t);
  }

  /** After a check at `t`, a load at `later` sends another exactly when
      more than 30 minutes have passed; a first load always sends. */
  lemma ThrottleWindow(t: nat, later: nat)
    ensures ShouldCheck(Some(Decimal(t)), later) <==> later - t > 1800000
    ensures ShouldCheck(None, later)
  {
    StoredRoundTrip(t);
  }

  /** A stored value that is not a number never lets a check through
      again. */
  lemma NonNumericBlocks(s: string, now: nat)
    requires s != [] && !AllDigits(s)
    ensures !ShouldCheck(Some(s), now)
  {
  }
}
