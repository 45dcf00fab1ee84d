/** success-popup.js: after a purchase the page reloads on a `?success`
    URL; the popup shows the stored purchase details once and, when closed,
    puts the URL back. */
module SuccessPopup {
  import opened Text
  import opened Checkout

  /** The success marker spliced into game URLs. */
  const GameMarker := "?success#!/"

  /** The success check: a game URL carrying the marker, or else (the
      `URLSearchParams` answer, a parameter here) a `success` query key. */
  function HasSuccess(href: string, searchHasSuccess: bool): (r: bool)
    ensures r <==> (Contains(href, "/games/") && Contains(href, GameMarker)) || searchHasSuccess
  {
    if Contains(href, "/games/") && Contains(href, GameMarker) then true else searchHasSuccess
  }

  /** The popup's start: nothing without the success marker or without
      stored details; otherwise the details are taken and removed from
      session storage at once, so a reload shows nothing. */
  method ShowSuccessPopup(session: Session, searchHasSuccess: bool) returns (details: Option<PurchaseDetails>)
    modifies session
    ensures !HasSuccess(old(session.href), searchHasSuccess) ==>
              details.None? && session.purchaseDetails == old(session.purchaseDetails)
    ensures HasSuccess(old(session.href), searchHasSuccess) ==>
              details == old(session.purchaseDetails) && session.purchaseDetails.None?
    ensures session.href == old(session.href)
  {
    if !HasSuccess(session.href, searchHasSuccess) {
      return None;
    }
    details := session.purchaseDetails;
    if details.None? {
      return;
    }
    session.purchaseDetails := None;
  }

  /** `closePopup`'s new URL: on a game URL with the marker, its first
      marker becomes `#!/`; elsewhere the URL with the `success` query key
      deleted, which the `URL` library computes (a parameter here). */
  function CleanedUrl(href: string, withoutSuccessKey: string): (r: string)
    ensures !(Contains(href, "/games/") && Contains(href, GameMarker)) ==> r == withoutSuccessKey
    ensures Contains(href, "/games/") && Contains(href, GameMarker) ==>
              var k := IndexOf(href, GameMarker).value;
              r == href[..k] + "#!/" + href[k + 11..]
  {
    if Contains(href, "/games/") && Contains(href, GameMarker) then ReplaceFirst(href, GameMarker, "#!/")
    else withoutSuccessKey
  }

  method ClosePopup(session: Session, withoutSuccessKey: string)
    modifies session
    ensures session.href == CleanedUrl(old(session.href), withoutSuccessKey)
    ensures session.purchaseDetails == old(session.purchaseDetails)
  {
    session.href := CleanedUrl(session.href, withoutSuccessKey);
  }

  /** The redirect on a game URL only inserts `?success` before the first
      `#!/`. */
  lemma RedirectInserts(u: string)
    requires IsGameHashUrl(u)
    ensures var k := IndexOf(u, "#!/").value;
            Redirect(u) == u[..k] + "?success" + u[k..]
  {
    SpliceMarker(u, IndexOf(u, "#!/").value);
  }

  /** Writing `?success#!/` over a `#!/` at `k` is inserting `?success`
      at `k`. */
  lemma SpliceMarker(u: string, k: nat)
    requires OccursAt(u, "#!/", k)
    ensures u[..k] + "?success#!/" + u[k + 3..] == u[..k] + "?success" + u[k..]
  {
    assert u[k..] == "#!/" + u[k + 3..] by {
      assert u[k..k + 3] == "#!/";
    }
  }

  /** The `/games/` segment survives the redirect. */
  lemma RedirectKeepsGames(u: string)
    requires IsGameHashUrl(u)
    ensures Contains(Redirect(u), "/games/")
  {
    var k := IndexOf(u, "#!/").value;
    var p := IndexOf(u, "/games/").value;
    RedirectInserts(u);
    GamesApartFromMarker(u, k, p);
    InsertKeeps(u, k, "?success", "/games/", p);
  }

  /** An occurrence of `/games/` cannot overlap the `#` of a `#!/`. */
  lemma GamesApartFromMarker(u: string, k: nat, p: nat)
    requires OccursAt(u, "#!/", k) && OccursAt(u, "/games/", p)
    ensures p + 7 <= k || k <= p
  {
    assert u[k] == '#' by { assert u[k..k + 3][0] == u[k]; }
    assert forall j :: p <= j < p + 7 ==> u[j] != '#' by {
      assert forall j :: p <= j < p + 7 ==> u[j] == u[p..p + 7][j - p];
    }
  }

  /** Inserting a string at `k` keeps any occurrence that lies wholly on
      one side of `k`. */
  lemma InsertKeeps(u: string, k: nat, ins: string, pat: string, p: nat)
    requires k <= |u| && OccursAt(u, pat, p) && (p + |pat| <= k || k <= p)
    ensures Contains(u[..k] + ins + u[k..], pat)
  {
    var r := u[..k] + ins + u[k..];
    if p + |pat| <= k {
      assert r[p..p + |pat|] == u[p..p + |pat|];
      ContainsAt(r, pat, p);
    } else {
      assert r[p + |ins|..p + |ins| + |pat|] == u[p..p + |pat|];
      ContainsAt(r, pat, p + |ins|);
    }
  }

  /** In the redirected game URL the first marker is the inserted one. */
  lemma RedirectMarkerFirst(u: string)
    requires IsGameHashUrl(u)
    ensures IndexOf(Redirect(u), GameMarker) == Some(IndexOf(u, "#!/").value)
  {
    RedirectInserts(u);
    MarkerFirstAfterInsert(u, IndexOf(u, "#!/").value);
  }

  /** Inserting `?success` before the first `#!/` puts the first marker
      there. */
  lemma MarkerFirstAfterInsert(u: string, k: nat)
    requires OccursAt(u, "#!/", k) && forall j :: 0 <= j < k ==> !OccursAt(u, "#!/", j)
    ensures IndexOf(u[..k] + "?success" + u[k..], GameMarker) == Some(k)
  {
    var r := u[..k] + "?success" + u[k..];
    assert r[k..k + 11] == GameMarker by {
      assert r[k..k + 8] == "?success";
      assert r[k + 8..k + 11] == u[k..k + 3] == "#!/";
      assert r[k..k + 11] == r[k..k + 8] + r[k + 8..k + 11];
    }
    forall j | 0 <= j < k
      ensures !OccursAt(r, GameMarker, j)
    {
      if j + 11 <= k {
        assert !OccursAt(u, "#!/", j + 8);
        assert r[j + 8..j + 11] == u[j + 8..j + 11];
        assert GameMarker[8..11] == "#!/";
      } else if j + 11 <= |r| {
        assert r[k] == '?';
        assert r[j..j + 11][k - j] == r[k];
        assert forall m :: 1 <= m < 11 ==> GameMarker[m] != '?';
      }
    }
    var x := IndexOf(r, GameMarker);
    assert OccursAt(r, GameMarker, k);
    assert x.Some?;
    assert !(x.value < k) && !(x.value > k);
  }

  /** Closing the popup exactly undoes the checkout redirect on game URLs:
      the success check fires on the redirected URL, and the cleanup gives
      back the URL the buyer started from. */
  lemma CleanUndoesRedirect(u: string, searchHasSuccess: bool, withoutSuccessKey: string)
    requires IsGameHashUrl(u)
    ensures HasSuccess(Redirect(u), searchHasSuccess)
    ensures CleanedUrl(Redirect(u), withoutSuccessKey) == u
  {
    var k := IndexOf(u, "#!/").value;
    RedirectInserts(u);
    RedirectKeepsGames(u);
    RedirectMarkerFirst(u);
    var r := Redirect(u);
    assert r[..k] == u[..k];
    assert r[k + 11..] == u[k + 3..];
    assert u == u[..k] + "#!/" + u[k + 3..] by {
      assert u[k..k + 3] == "#!/";
      assert u == u[..k] + u[k..k + 3] + u[k + 3..];
    }
  }

  /** The popup's second button. */
  datatype SecondButton = AvatarLink | ContinueButton

  /** Catalog and bundle pages (matched case-insensitively) link to the
      avatar editor; every other page gets the continue button. */
  function SecondButtonFor(href: string): (b: SecondButton)
    ensures b == AvatarLink <==> Contains(ToLower(href), "catalog") || Contains(ToLower(href), "bundle")
  {
    if Contains(ToLower(href), "catalog") || Contains(ToLower(href), "bundle") then AvatarLink
    else ContinueButton
  }

  /** Lower-casing keeps every occurrence of an all-lowercase pattern. */
  lemma LowerKeeps(s: string, pat: string)
    requires forall i :: 0 <= i < |pat| ==> !('A' <= pat[i] <= 'Z')
    requires Contains(s, pat)
    ensures Contains(ToLower(s), pat)
  {
    var k := IndexOf(s, pat).value;
    var l := ToLower(s);
    assert l[k..k + |pat|] == pat by {
      forall i | 0 <= i < |pat|
        ensures l[k + i] == pat[i]
      {
        assert s[k..k + |pat|][i] == s[k + i];
      }
    }
    ContainsAt(l, pat, k);
  }

  /** Lower-casing also finds the words in upper or mixed case. */
  lemma UpperCatalogFound(a: string, b: string)
    ensures SecondButtonFor(a + "CATALOG" + b) == AvatarLink
    ensures SecondButtonFor(a + "Bundle" + b) == AvatarLink
  {
    var s := a + "CATALOG" + b;
    var l := ToLower(s);
    assert l[|a|..|a| + 7] == "catalog";
    ContainsAt(l, "catalog", |a|);
    var t := a + "Bundle" + b;
    var lt := ToLower(t);
    assert lt[|a|..|a| + 6] == "bundle";
    ContainsAt(lt, "bundle", |a|);
  }

  /** Every catalog or bundle URL gets the avatar link. */
  lemma CatalogPagesLinkAvatar(href: string)
    requires Contains(href, "catalog") || Contains(href, "bundle")
    ensures SecondButtonFor(href) == AvatarLink
  {
    if Contains(href, "catalog") {
      LowerKeeps(href, "catalog");
    } else {
      LowerKeeps(href, "bundle");
    }
  }
}
