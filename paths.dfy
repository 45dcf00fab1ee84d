/** The anchored path patterns `^\/(?:[a-z]{2}\/)?<word>\/(\d+)\/` that the
    catalog, bundle and game-pass scripts test `location.pathname` against:
    an optional two-letter locale segment, a fixed word, and the id as the
    digit run before the next slash. */
module Paths {
  import opened Text

  predicate StartsWith(s: string, p: string)
  {
    |p| <= |s| && s[..|p|] == p
  }

  /** `(\d+)\/` at the start of `rest`: the whole leading digit run, which
      must be non-empty and followed by a slash (shorter runs end on a
      digit, so backtracking cannot help). */
  function DigitsThenSlash(rest: string): (r: Option<string>)
    ensures r.Some? ==> r.value != [] && AllDigits(r.value) &&
                        StartsWith(rest, r.value + "/")
  {
    var d := LeadingDigits(rest);
    if d != [] && |d| < |rest| && rest[|d|] == '/' then
      assert rest[..|d| + 1] == d + "/";
      Some(d)
    else None
  }

  /** The path begins with a locale segment such as `/de/`. */
  predicate LocalePrefixed(path: string)
  {
    |path| >= 4 && path[0] == '/' && IsAsciiLower(path[1]) && IsAsciiLower(path[2]) && path[3] == '/'
  }

  /** The id captured from `path` by the pattern for `word`; the regular
      expression tries the locale segment first and falls back to none. */
  function PathId(path: string, word: string): (r: Option<string>)
    ensures r.Some? ==> r.value != [] && AllDigits(r.value)
    ensures r.Some? ==>
      StartsWith(path, "/" + word + "/" + r.value + "/") ||
      (LocalePrefixed(path) && StartsWith(path[4..], word + "/" + r.value + "/"))
  {
    var withLocale :=
      if LocalePrefixed(path) && StartsWith(path[4..], word + "/")
      then DigitsThenSlash(path[|word| + 5..]) else None;
    if withLocale.Some? then
      LocaleMatch(path, word, withLocale.value);
      withLocale
    else if StartsWith(path, "/" + word + "/") then
      var plain := DigitsThenSlash(path[|word| + 2..]);
      if plain.Some? then
        PlainMatch(path, word, plain.value);
        plain
      else plain
    else None
  }

  lemma StartsAfter(s: string, p: string, q: string)
    requires StartsWith(s, p) && StartsWith(s[|p|..], q)
    ensures StartsWith(s, p + q)
  {
    assert s[..|p| + |q|] == s[..|p|] + s[|p|..][..|q|];
  }

  /** The locale branch: `<word>/` after the locale, then `<v>/`. */
  lemma LocaleMatch(path: string, word: string, v: string)
    requires |path| >= 4 && StartsWith(path[4..], word + "/")
    requires StartsWith(path[|word| + 5..], v + "/")
    ensures StartsWith(path[4..], word + "/" + v + "/")
  {
    var t := path[4..];
    assert t[|word + "/"|..] == path[|word| + 5..];
    StartsAfter(t, word + "/", v + "/");
    assert word + "/" + (v + "/") == word + "/" + v + "/";
  }

  /** The plain branch: `/<word>/`, then `<v>/`. */
  lemma PlainMatch(path: string, word: string, v: string)
    requires StartsWith(path, "/" + word + "/")
    requires StartsWith(path[|word| + 2..], v + "/")
    ensures StartsWith(path, "/" + word + "/" + v + "/")
  {
    assert path[|"/" + word + "/"|..] == path[|word| + 2..];
    StartsAfter(path, "/" + word + "/", v + "/");
    assert "/" + word + "/" + (v + "/") == "/" + word + "/" + v + "/";
  }

  /** The word's third letter is not a slash, so its path never passes for
      a locale segment. */
  predicate PlainWord(word: string)
  {
    |word| >= 3 && '/' !in word
  }

  /** `/<word>/<digits>/...` yields the digits; `lead` is the literal
      `/<word>/`. */
  lemma PathIdPlain(lead: string, word: string, d: string, tail: string)
    requires lead == "/" + word + "/"
    requires PlainWord(word) && d != [] && AllDigits(d)
    ensures PathId(lead + d + "/" + tail, word) == Some(d)
  {
    var path := lead + d + "/" + tail;
    assert path[3] == word[2];
    assert path == "/" + word + "/" + (d + "/" + tail);
    assert path[|word| + 2..] == d + ("/" + tail);
    AllDigitsLeading(d, "/" + tail);
  }

  /** `/<ll>/<word>/<digits>/...`, for a two-lowercase-letter locale, yields
      the digits; `lead` is the literal `/<word>/`. */
  lemma PathIdLocale(locale: string, lead: string, word: string, d: string, tail: string)
    requires lead == "/" + word + "/"
    requires |locale| == 2 && IsAsciiLower(locale[0]) && IsAsciiLower(locale[1])
    requires d != [] && AllDigits(d)
    ensures PathId("/" + locale + lead + d + "/" + tail, word) == Some(d)
  {
    var path := "/" + locale + lead + d + "/" + tail;
    LocaleLayout(locale, lead, word, d, tail);
    DigitsBeforeSlash(d, tail);
    LocaleBranch(path, word, d);
  }

  /** Where the pieces of a locale-prefixed path sit. */
  lemma LocaleLayout(locale: string, lead: string, word: string, d: string, tail: string)
    requires lead == "/" + word + "/"
    requires |locale| == 2 && IsAsciiLower(locale[0]) && IsAsciiLower(locale[1])
    ensures LocalePrefixed("/" + locale + lead + d + "/" + tail)
    ensures StartsWith(("/" + locale + lead + d + "/" + tail)[4..], word + "/")
    ensures ("/" + locale + lead + d + "/" + tail)[|word| + 5..] == d + ("/" + tail)
  {
    var path := "/" + locale + lead + d + "/" + tail;
    assert path[4..] == word + "/" + (d + "/" + tail);
  }

  /** A digit run followed by a slash is captured whole. */
  lemma DigitsBeforeSlash(d: string, tail: string)
    requires d != [] && AllDigits(d)
    ensures DigitsThenSlash(d + ("/" + tail)) == Some(d)
  {
    AllDigitsLeading(d, "/" + tail);
  }

  /** The locale alternative, once it matches, decides the id. */
  lemma LocaleBranch(path: string, word: string, d: string)
    requires LocalePrefixed(path) && StartsWith(path[4..], word + "/")
    requires DigitsThenSlash(path[|word| + 5..]) == Some(d)
    ensures PathId(path, word) == Some(d)
  {
  }

  /** A path the pattern for `word` accepts mentions `/<word>`: at its
      start, or right after the locale segment. */
  lemma PathIdMentions(path: string, word: string, lead: string) returns (i: nat)
    requires lead == "/" + word
    requires PathId(path, word).Some?
    ensures OccursAt(path, lead, i)
  {
    var v := PathId(path, word).value;
    if StartsWith(path, "/" + word + "/" + v + "/") {
      i := 0;
      assert path[..|word| + 1] == ("/" + word + "/" + v + "/")[..|word| + 1];
      assert ("/" + word + "/" + v + "/")[..|word| + 1] == "/" + word;
    } else {
      i := 3;
      var t := path[4..];
      assert t[..|word|] == (word + "/" + v + "/")[..|word|];
      assert (word + "/" + v + "/")[..|word|] == word;
      assert path[3..4 + |word|] == [path[3]] + t[..|word|];
    }
  }

  /** A path that starts with neither `/<word>/` nor a locale segment
      followed by `<word>/` yields nothing. */
  lemma PathIdOther(path: string, word: string)
    requires !StartsWith(path, "/" + word + "/")
    requires !(LocalePrefixed(path) && StartsWith(path[4..], word + "/"))
    ensures PathId(path, word).None?
  {
  }
}
