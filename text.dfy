/** String and number helpers shared by every content script: first-occurrence
    search and replacement (JavaScript's `includes`, `indexOf`, `replace` with a
    string pattern), decimal rendering, the comma-grouping `formatNumber`,
    `parseInt`, `trim` and ASCII `toUpperCase`. */
module Text {

  datatype Option<T> = None | Some(value: T)

  predicate IsDigit(c: char) { '0' <= c <= '9' }

  predicate IsAsciiLower(c: char) { 'a' <= c <= 'z' }

  /** The characters of the regular-expression class `\w`. */
  predicate IsWordChar(c: char) {
    'a' <= c <= 'z' || 'A' <= c <= 'Z' || '0' <= c <= '9' || c == '_'
  }

  predicate AllDigits(s: string) { forall i :: 0 <= i < |s| ==> IsDigit(s[i]) }

  // ---------------------------------------------------------------------------
  // Searching

  /** `pat` occurs in `s` starting at index `i`. */
  predicate OccursAt(s: string, pat: string, i: nat) {
    i + |pat| <= |s| && s[i..i + |pat|] == pat
  }

  /** The first occurrence of `pat` at or after `k`. */
  function IndexFrom(s: string, pat: string, k: nat): (r: Option<nat>)
    decreases |s| - k
    ensures r.Some? ==> k <= r.value && OccursAt(s, pat, r.value)
    ensures r.Some? ==> forall j :: k <= j < r.value ==> !OccursAt(s, pat, j)
    ensures r.None? ==> forall j :: k <= j ==> !OccursAt(s, pat, j)
  {
    if k + |pat| > |s| then None
    else if s[k..k + |pat|] == pat then Some(k)
    else IndexFrom(s, pat, k + 1)
  }

  /** `s.indexOf(pat)`, with `None` for -1. */
  function IndexOf(s: string, pat: string): (r: Option<nat>)
    ensures r.Some? ==> OccursAt(s, pat, r.value)
    ensures r.Some? ==> forall j :: 0 <= j < r.value ==> !OccursAt(s, pat, j)
    ensures r.None? ==> forall j :: 0 <= j ==> !OccursAt(s, pat, j)
  {
    IndexFrom(s, pat, 0)
  }

  /** `s.includes(pat)`. */
  predicate Contains(s: string, pat: string) { IndexOf(s, pat).Some? }

  lemma ContainsAt(s: string, pat: string, i: nat)
    requires OccursAt(s, pat, i)
    ensures Contains(s, pat)
  {
  }

  lemma ConcatContains(a: string, pat: string, b: string)
    ensures Contains(a + pat + b, pat)
  {
    assert (a + pat + b)[|a|..|a| + |pat|] == pat;
    ContainsAt(a + pat + b, pat, |a|);
  }

  /** `s.replace(pat, rep)` for a plain string pattern: only the first
      occurrence is replaced. */
  function ReplaceFirst(s: string, pat: string, rep: string): (r: string)
    ensures !Contains(s, pat) ==> r == s
    ensures Contains(s, pat) ==>
      var i := IndexOf(s, pat).value;
      r == s[..i] + rep + s[i + |pat|..]
  {
    match IndexOf(s, pat)
    case None => s
    case Some(i) => s[..i] + rep + s[i + |pat|..]
  }

  /** The part of `s` before the first `sep` (all of `s` when there is none):
      `s.split(sep)[0]`. */
  function Before(s: string, sep: string): (r: string)
    ensures |r| <= |s| && r == s[..|r|]
    ensures !Contains(s, sep) ==> r == s
    ensures Contains(s, sep) ==> OccursAt(s, sep, |r|)
  {
    match IndexOf(s, sep)
    case None => s
    case Some(i) => s[..i]
  }

  /** The part of `s` after the first `sep`, up to the next one:
      `s.split(sep)[1]`, or `None` when `sep` does not occur. */
  function SecondPiece(s: string, sep: string): (r: Option<string>)
    requires |sep| > 0
    ensures r.None? <==> !Contains(s, sep)
    ensures r.Some? ==> |r.value| + |sep| <= |s|
  {
    match IndexOf(s, sep)
    case None => None
    case Some(i) => Some(Before(s[i + |sep|..], sep))
  }

  /** Splitting `a + sep + b` on `sep`, when `a` has no character that
      could start `sep`: the first piece is `a` and the second is `b` up to
      its own first `sep`. */
  lemma SplitAt(a: string, sep: string, b: string)
    requires |sep| > 0 && sep[0] !in a
    ensures IndexOf(a + sep + b, sep) == Some(|a|)
    ensures Before(a + sep + b, sep) == a
    ensures SecondPiece(a + sep + b, sep) == Some(Before(b, sep))
  {
    var s := a + sep + b;
    forall j | 0 <= j < |a|
      ensures !OccursAt(s, sep, j)
    {
      assert s[j] == a[j] && a[j] != sep[0];
      assert j + |sep| <= |s| ==> s[j..j + |sep|][0] == s[j];
    }
    assert s[|a|..|a| + |sep|] == sep;
    assert OccursAt(s, sep, |a|);
    var r := IndexOf(s, sep);
    assert r.Some?;
    assert !(r.value < |a|) && !(r.value > |a|);
    assert s[|a| + |sep|..] == b;
  }

  /** The piece before the first `c` holds no `c`. */
  lemma BeforeCharFree(s: string, c: char)
    ensures c !in Before(s, [c])
  {
    var r := Before(s, [c]);
    forall j | 0 <= j < |r|
      ensures r[j] != c
    {
      assert !OccursAt(s, [c], j);
      assert s[j..j + 1] == [s[j]];
    }
  }

  /** A string without `c` does not contain `[c]`. */
  lemma CharAbsent(s: string, c: char)
    requires c !in s
    ensures !Contains(s, [c])
  {
    forall j | 0 <= j
      ensures !OccursAt(s, [c], j)
    {
      if j + 1 <= |s| {
        assert s[j..j + 1][0] == s[j];
      }
    }
  }

  /** What a prefix contains, the whole string contains. */
  lemma PrefixContains(s: string, p: string, pat: string)
    requires |p| <= |s| && p == s[..|p|]
    ensures Contains(p, pat) ==> Contains(s, pat)
  {
    if Contains(p, pat) {
      var k := IndexOf(p, pat).value;
      assert OccursAt(p, pat, k);
      assert forall i :: k <= i < k + |pat| ==> s[i] == p[i];
      assert s[k..k + |pat|] == p[k..k + |pat|];
      ContainsAt(s, pat, k);
    }
  }

  // ---------------------------------------------------------------------------
  // Decimal numbers

  function DigitChar(d: nat): (c: char)
    requires d < 10
    ensures IsDigit(c)
  {
    ['0', '1', '2', '3', '4', '5', '6', '7', '8', '9'][d]
  }

  function DigitValue(c: char): (d: nat)
    requires IsDigit(c)
    ensures d < 10 && DigitChar(d) == c
  {
    (c as int - '0' as int) as nat
  }

  /** `n.toString()` for a non-negative integer. */
  function Decimal(n: nat): (r: string)
    ensures |r| > 0 && AllDigits(r)
  {
    if n < 10 then [DigitChar(n)] else Decimal(n / 10) + [DigitChar(n % 10)]
  }

  /** The value of a string of decimal digits (the empty string is 0). */
  function DecimalValue(s: string): nat
    requires AllDigits(s)
  {
    if s == [] then 0 else DecimalValue(s[..|s| - 1]) * 10 + DigitValue(s[|s| - 1])
  }

  /** Reading a digit character back gives the digit. */
  lemma DigitCharValue(d: nat)
    requires d < 10
    ensures DigitValue(DigitChar(d)) == d
  {
  }

  lemma {:induction false} DecimalRoundTrip(n: nat)
    ensures DecimalValue(Decimal(n)) == n
  {
    var r := Decimal(n);
    DigitCharValue(n % 10);
    if n >= 10 {
      DecimalRoundTrip(n / 10);
      assert r[..|r| - 1] == Decimal(n / 10);
      assert r[|r| - 1] == DigitChar(n % 10);
    } else {
      assert r[..0] == [];
    }
  }

  /** A value below 1000 written with exactly three digits. */
  function Pad3(m: nat): (r: string)
    requires m < 1000
    ensures |r| == 3 && AllDigits(r)
  {
    [DigitChar(m / 100), DigitChar(m / 10 % 10), DigitChar(m % 10)]
  }

  /** The digits of `n` above and below the thousands. */
  lemma ThousandDigits(n: nat)
    ensures n / 10 / 10 == n / 100 && n / 100 / 10 == n / 1000
    ensures n % 1000 / 100 == n / 100 % 10
    ensures n % 1000 / 10 % 10 == n / 10 % 10
    ensures n % 1000 % 10 == n % 10
  {
    var q, r := n / 1000, n % 1000;
    assert n == 1000 * q + r;
    assert n / 10 == 100 * q + r / 10;
    assert n / 100 == 10 * q + r / 100;
  }

  lemma {:induction false} DecimalSplit3(n: nat)
    requires n >= 1000
    ensures Decimal(n) == Decimal(n / 1000) + Pad3(n % 1000)
  {
    ThousandDigits(n);
    var a, b, c := n / 10, n / 100, n / 1000;
    assert Decimal(n) == Decimal(a) + [DigitChar(n % 10)];
    assert Decimal(a) == Decimal(b) + [DigitChar(a % 10)];
    assert Decimal(b) == Decimal(c) + [DigitChar(b % 10)];
    assert Pad3(n % 1000) == [DigitChar(b % 10)] + [DigitChar(a % 10)] + [DigitChar(n % 10)];
  }

  /** `s` without its commas. */
  function StripCommas(s: string): (r: string)
    ensures |r| <= |s|
  {
    if s == [] then []
    else (if s[0] == ',' then [] else [s[0]]) + StripCommas(s[1..])
  }

  lemma {:induction false} StripCommasAppend(a: string, b: string)
    ensures StripCommas(a + b) == StripCommas(a) + StripCommas(b)
  {
    if a != [] {
      assert (a + b)[0] == a[0];
      assert (a + b)[1..] == a[1..] + b;
      StripCommasAppend(a[1..], b);
    } else {
      assert a + b == b;
    }
  }

  lemma {:induction false} StripCommasDigits(s: string)
    requires AllDigits(s)
    ensures StripCommas(s) == s
  {
    if s != [] {
      StripCommasDigits(s[1..]);
    }
  }

  /** `num.toString().replace(/\B(?=(\d{3})+(?!\d))/g, ",")` on a
      non-negative integer: a comma before every group of three digits
      counted from the right, except at the very start. */
  function FormatNumber(n: nat): (r: string)
  {
    if n < 1000 then Decimal(n) else FormatNumber(n / 1000) + "," + Pad3(n % 1000)
  }

  /** Deleting the commas from `formatNumber(n)` gives the decimal form of n. */
  lemma {:induction false} FormatNumberDigits(n: nat)
    ensures StripCommas(FormatNumber(n)) == Decimal(n)
  {
    if n < 1000 {
      StripCommasDigits(Decimal(n));
    } else {
      FormatNumberDigits(n / 1000);
      StripCommasAppend(FormatNumber(n / 1000), ",");
      StripCommasAppend(FormatNumber(n / 1000) + ",", Pad3(n % 1000));
      StripCommasDigits(Pad3(n % 1000));
      DecimalSplit3(n);
    }
  }

  /** Commas sit exactly at the positions that are a multiple of four from the
      end, never at the start, and every other character is a digit: so the
      first group has one to three digits and every later group exactly three. */
  predicate GroupedByThrees(r: string) {
    && |r| > 0
    && (forall i :: 0 <= i < |r| ==> (r[i] == ',' <==> (i > 0 && (|r| - i) % 4 == 0)))
    && (forall i :: 0 <= i < |r| && r[i] != ',' ==> IsDigit(r[i]))
  }

  lemma {:induction false} FormatNumberGrouped(n: nat)
    ensures GroupedByThrees(FormatNumber(n))
    ensures |FormatNumber(n)| % 4 != 0
  {
    if n < 1000 {
      DecimalBelow1000(n);
      GroupedShort(Decimal(n));
    } else {
      FormatNumberGrouped(n / 1000);
      GroupedStep(FormatNumber(n / 1000), Pad3(n % 1000));
    }
  }

  lemma GroupedShort(d: string)
    requires 0 < |d| <= 3 && AllDigits(d)
    ensures GroupedByThrees(d) && |d| % 4 != 0
  {
  }

  lemma GroupedStep(p: string, q: string)
    requires GroupedByThrees(p) && |p| % 4 != 0
    requires |q| == 3 && AllDigits(q)
    ensures GroupedByThrees(p + "," + q) && |p + "," + q| % 4 != 0
  {
    var r := p + "," + q;
    forall i | 0 <= i < |r|
      ensures r[i] == ',' <==> (i > 0 && (|r| - i) % 4 == 0)
      ensures r[i] != ',' ==> IsDigit(r[i])
    {
      if i < |p| {
        assert r[i] == p[i];
        assert |r| - i == (|p| - i) + 4;
      } else if i > |p| {
        assert r[i] == q[i - |p| - 1];
      }
    }
  }

  lemma {:induction false} DecimalBelow1000(n: nat)
    requires n < 1000
    ensures |Decimal(n)| <= 3
    ensures n < 100 ==> |Decimal(n)| <= 2
    ensures n < 10 ==> |Decimal(n)| == 1
  {
    if n >= 10 {
      DecimalBelow1000(n / 10);
    }
  }

  // ---------------------------------------------------------------------------
  // parseInt, trim, toUpperCase

  /** The longest run of digits at the start of `s`. */
  function LeadingDigits(s: string): (r: string)
    ensures |r| <= |s| && AllDigits(r) && r == s[..|r|]
    ensures |r| < |s| ==> !IsDigit(s[|r|])
  {
    if s != [] && IsDigit(s[0]) then [s[0]] + LeadingDigits(s[1..]) else []
  }

  /** `parseInt(s, 10)` on text without leading white space: an optional
      sign, then the leading digits; `None` stands for NaN. */
  function ParseInt(s: string): (r: Option<int>)
    ensures r.None? <==> LeadingDigits(if s != [] && (s[0] == '-' || s[0] == '+') then s[1..] else s) == []
  {
    var neg := s != [] && s[0] == '-';
    var body := if s != [] && (s[0] == '-' || s[0] == '+') then s[1..] else s;
    var ds := LeadingDigits(body);
    if ds == [] then None
    else if neg then Some(-(DecimalValue(ds) as int))
    else Some(DecimalValue(ds) as int)
  }

  lemma {:induction false} LeadingDigitsOfDecimal(n: nat, rest: string)
    requires rest == [] || !IsDigit(rest[0])
    ensures LeadingDigits(Decimal(n) + rest) == Decimal(n)
  {
    AllDigitsLeading(Decimal(n), rest);
  }

  lemma {:induction false} AllDigitsLeading(s: string, rest: string)
    requires AllDigits(s)
    requires rest == [] || !IsDigit(rest[0])
    ensures LeadingDigits(s + rest) == s
  {
    if s != [] {
      assert (s + rest)[1..] == s[1..] + rest;
      AllDigitsLeading(s[1..], rest);
    } else {
      assert s + rest == rest;
    }
  }

  /** parseInt reads back what `toString` wrote. */
  lemma ParseIntDecimal(n: nat)
    ensures ParseInt(Decimal(n)) == Some(n)
  {
    LeadingDigitsOfDecimal(n, []);
    assert Decimal(n) + [] == Decimal(n);
    DecimalRoundTrip(n);
  }

  /** The white space and line terminators that `String.prototype.trim`
      removes. */
  predicate IsJsWhitespace(c: char) {
    c == ' ' || c == '\t' || c == '\n' || c == '\r' || c == '\U{000B}' || c == '\U{000C}'
    || c == '\U{00A0}' || c == '\U{FEFF}' || c == '\U{1680}' || ('\U{2000}' <= c <= '\U{200A}')
    || c == '\U{2028}' || c == '\U{2029}' || c == '\U{202F}' || c == '\U{205F}' || c == '\U{3000}'
  }

  function TrimStart(s: string): (r: string)
    ensures |r| <= |s| && r == s[|s| - |r|..]
    ensures r == [] || !IsJsWhitespace(r[0])
    ensures forall i :: 0 <= i < |s| - |r| ==> IsJsWhitespace(s[i])
  {
    if s == [] || !IsJsWhitespace(s[0]) then s
    else
      var r := TrimStart(s[1..]);
      assert s[|s| - |r|..] == s[1..][|s| - 1 - |r|..];
      assert forall i :: 1 <= i < |s| - |r| ==> s[i] == s[1..][i - 1];
      r
  }

  function TrimEnd(s: string): (r: string)
    ensures |r| <= |s| && r == s[..|r|]
    ensures r == [] || !IsJsWhitespace(r[|r| - 1])
    ensures forall i :: |r| <= i < |s| ==> IsJsWhitespace(s[i])
  {
    if s == [] || !IsJsWhitespace(s[|s| - 1]) then s
    else
      var r := TrimEnd(s[..|s| - 1]);
      assert s[..|r|] == s[..|s| - 1][..|r|];
      assert forall i :: |r| <= i < |s| - 1 ==> s[i] == s[..|s| - 1][i];
      r
  }

  /** `s.trim()`. */
  function Trim(s: string): (r: string)
    ensures |r| <= |s|
    ensures r == [] || (!IsJsWhitespace(r[0]) && !IsJsWhitespace(r[|r| - 1]))
    ensures r == [] <==> forall i :: 0 <= i < |s| ==> IsJsWhitespace(s[i])
  {
    var t := TrimStart(s);
    var r := TrimEnd(t);
    assert r == [] ==> t == [];
    assert r != [] ==> r[0] == t[0];
    r
  }

  function UpperChar(c: char): (u: char)
    ensures IsAsciiLower(c) ==> u as int == c as int - 32
    ensures !IsAsciiLower(c) ==> u == c
  {
    if IsAsciiLower(c) then (c as int - 32) as char else c
  }

  /** `s.toUpperCase()` restricted to the ASCII letters. */
  function ToUpper(s: string): (r: string)
    ensures |r| == |s|
    ensures forall i :: 0 <= i < |s| ==> r[i] == UpperChar(s[i])
  {
    if s == [] then [] else [UpperChar(s[0])] + ToUpper(s[1..])
  }

  /** Upper-casing twice is upper-casing once. */
  lemma UpperIdempotent(s: string)
    ensures ToUpper(ToUpper(s)) == ToUpper(s)
  {
    var u := ToUpper(s);
    assert forall i :: 0 <= i < |u| ==> UpperChar(u[i]) == u[i];
  }

  /** Upper-casing never turns a non-blank string blank. */
  lemma UpperNonBlank(s: string)
    requires s != [] && !IsJsWhitespace(s[0])
    ensures Trim(ToUpper(s)) != []
  {
    assert !IsJsWhitespace(ToUpper(s)[0]);
  }

  function LowerChar(c: char): (l: char)
    ensures 'A' <= c <= 'Z' ==> l as int == c as int + 32
    ensures !('A' <= c <= 'Z') ==> l == c
  {
    if 'A' <= c <= 'Z' then (c as int + 32) as char else c
  }

  /** `s.toLowerCase()` restricted to the ASCII letters. */
  function ToLower(s: string): (r: string)
    ensures |r| == |s|
    ensures forall i :: 0 <= i < |s| ==> r[i] == LowerChar(s[i])
  {
    if s == [] then [] else [LowerChar(s[0])] + ToLower(s[1..])
  }
}
