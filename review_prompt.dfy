/** review-prompt.js (with the re-arm in dashboard.js): a five-star review
    prompt that is armed after a successful withdrawal, shown while armed
    and not yet reviewed, and retired for good by a click on any star. */
module ReviewPrompt {

  /** The two local-storage flags, each read as `=== true`: an absent or
      removed flag is `false`. */
  datatype Flags = Flags(showReviewPrompt: bool, hasReviewed: bool)

  /** The prompt appears only when armed and not yet reviewed. */
  predicate ShouldShow(f: Flags) {
    f.showReviewPrompt && !f.hasReviewed
  }

  /** A star click: `hasReviewed` is set, then `showReviewPrompt` removed. */
  function AfterClick(f: Flags): (g: Flags)
    ensures g.hasReviewed && !g.showReviewPrompt && !ShouldShow(g)
  {
    Flags(false, true)
  }

  /** dashboard.js after a successful withdrawal: the prompt is armed
      unless the user has already reviewed. */
  function AfterWithdrawal(f: Flags): (g: Flags)
    ensures g.hasReviewed == f.hasReviewed
    ensures !f.hasReviewed ==> ShouldShow(g)
    ensures f.hasReviewed ==> g == f
  {
    if f.hasReviewed then f else f.(showReviewPrompt := true)
  }

  datatype Event = Withdrawal | StarClick

  function Replay(f: Flags, events: seq<Event>): Flags
    decreases events
  {
    if events == [] then f
    else
      var g := if events[0] == Withdrawal then AfterWithdrawal(f) else AfterClick(f);
      Replay(g, events[1..])
  }

  /** Once reviewed, no sequence of withdrawals and clicks shows the
      prompt again, and the review is never forgotten. */
  lemma {:induction false} ReviewedStaysHidden(f: Flags, events: seq<Event>)
    decreases events
    requires f.hasReviewed
    ensures Replay(f, events).hasReviewed && !ShouldShow(Replay(f, events))
  {
    if events != [] {
      var g := if events[0] == Withdrawal then AfterWithdrawal(f) else AfterClick(f);
      ReviewedStaysHidden(g, events[1..]);
    }
  }

  /** Star `index` is hovered: stars 0..index are active, the rest not. */
  function HoverPattern(count: nat, index: nat): (r: seq<bool>)
    ensures |r| == count
    ensures forall i :: 0 <= i < count ==> (r[i] <==> i <= index)
  {
    seq(count, i => i <= index)
  }

  function ActiveCount(s: seq<bool>): nat {
    if s == [] then 0 else ActiveCount(s[..|s| - 1]) + (if s[|s| - 1] then 1 else 0)
  }

  /** Hovering star `index` (counted from 0) lights exactly `index + 1`
      stars. */
  lemma {:induction false} HoverLightsPrefix(count: nat, index: nat)
    requires index < count
    ensures ActiveCount(HoverPattern(count, index)) == index + 1
  {
    var r := HoverPattern(count, index);
    if count - 1 > index {
      assert r[..count - 1] == HoverPattern(count - 1, index);
      HoverLightsPrefix(count - 1, index);
    } else {
      assert r[..count - 1] == seq(count - 1, i => true);
      AllActive(count - 1);
    }
  }

  lemma {:induction false} AllActive(n: nat)
    ensures ActiveCount(seq(n, i => true)) == n
  {
    if n > 0 {
      assert seq(n, i => true)[..n - 1] == seq(n - 1, i => true);
      AllActive(n - 1);
    }
  }

  /** The prompt on a page: the stored flags, whether it is on screen, and
      the `hover-active` class of each star. */
  class Prompt {
    var flags: Flags
    var visible: bool
    const stars: array<bool>

    constructor(stored: Flags)
      ensures flags == stored && !visible
      ensures stars.Length == 5 && forall i :: 0 <= i < 5 ==> !stars[i]
      ensures fresh(stars)
    {
      flags := stored;
      visible := false;
      stars := new bool[5](i => false);
    }

    /** Page load: the prompt is inserted when the flags allow it. */
    method Load()
      modifies this
      ensures visible == ShouldShow(flags) && flags == old(flags)
    {
      visible := ShouldShow(flags);
    }

    /** `mouseenter` on star `index`. */
    method Hover(index: nat)
      modifies stars
      ensures stars[..] == HoverPattern(stars.Length, index)
    {
      for i := 0 to stars.Length
        invariant forall j :: 0 <= j < i ==> (stars[j] <==> j <= index)
      {
        stars[i] := i <= index;
      }
    }

    /** `mouseleave` on the star row: every highlight is cleared. */
    method Leave()
      modifies stars
      ensures forall i :: 0 <= i < stars.Length ==> !stars[i]
    {
      for i := 0 to stars.Length
        invariant forall j :: 0 <= j < i ==> !stars[j]
      {
        stars[i] := false;
      }
    }

    /** A click on any star: the review page opens (not modelled), the
        prompt goes away and the flags retire it. */
    method Click()
      modifies this
      ensures flags == AfterClick(old(flags)) && !visible
    {
      flags := Flags(flags.showReviewPrompt, true);
      flags := Flags(false, flags.hasReviewed);
      visible := false;
    }

    /** dashboard.js's re-arm after a successful withdrawal. */
    method Rearm()
      modifies this
      ensures flags == AfterWithdrawal(old(flags)) && visible == old(visible)
    {
      if !flags.hasReviewed {
        flags := flags.(showReviewPrompt := true);
      }
    }
  }
}
