/** The `getMessage(key, substitutions)` helper that every content script
    carries a copy of: look the key up in the loaded locale catalogue and
    replace each `$i` placeholder, globally, by the i-th substitution. */
module Messages {
  import opened Text

  /** The loaded `messages.json`, key to message text; `None` while nothing
      is cached. */
  type Catalogue = Option<map<string, string>>

  /** The `substitutions` argument: absent, a single value (a falsy one, the
      empty string, is skipped like an absent one) or an array. */
  datatype Substitutions = NoSubs | One(sub: string) | Many(subs: seq<string>)

  /** The placeholder `$i` that the regular expression `\$i` matches. */
  function Placeholder(i: nat): (p: string)
    ensures |p| >= 2 && p[0] == '$'
  {
    "$" + Decimal(i)
  }

  /** `s.replace(new RegExp(pat, 'g'), rep)` for a literal pattern: every
      occurrence, scanning left to right without overlaps. */
  function ReplaceAll(s: string, pat: string, rep: string): (r: string)
    requires |pat| > 0
    decreases |s|
  {
    if |s| < |pat| then s
    else if s[..|pat|] == pat then rep + ReplaceAll(s[|pat|..], pat, rep)
    else [s[0]] + ReplaceAll(s[1..], pat, rep)
  }

  /** Text that does not contain the pattern's first character passes through
      unchanged, and the scan resumes right after it. */
  lemma {:induction false} ReplaceAllSkip(a: string, b: string, pat: string, rep: string)
    requires |pat| > 0 && pat[0] !in a
    ensures ReplaceAll(a + b, pat, rep) == a + ReplaceAll(b, pat, rep)
  {
    if a != [] {
      var s := a + b;
      assert s[0] == a[0];
      if |s| < |pat| {
        // the whole text is shorter than the pattern: nothing is replaced at all
        ReplaceAllShort(s, pat, rep);
        ReplaceAllShort(b, pat, rep);
      } else {
        assert s[..|pat|][0] == a[0];
        assert s[1..] == a[1..] + b;
        ReplaceAllSkip(a[1..], b, pat, rep);
      }
    } else {
      assert a + b == b;
    }
  }

  lemma {:induction false} ReplaceAllShort(s: string, pat: string, rep: string)
    requires |pat| > 0 && |s| < |pat|
    ensures ReplaceAll(s, pat, rep) == s
  {
  }

  /** An occurrence at the front is replaced. */
  lemma ReplaceAllHit(b: string, pat: string, rep: string)
    requires |pat| > 0
    ensures ReplaceAll(pat + b, pat, rep) == rep + ReplaceAll(b, pat, rep)
  {
    var s := pat + b;
    assert s[..|pat|] == pat;
    assert s[|pat|..] == b;
  }

  /** Text without the pattern's first character is left alone. */
  lemma ReplaceAllNone(s: string, pat: string, rep: string)
    requires |pat| > 0 && pat[0] !in s
    ensures ReplaceAll(s, pat, rep) == s
  {
    ReplaceAllSkip(s, [], pat, rep);
    assert s + [] == s;
  }

  /** The message after substitutions 1..|subs| have been applied in order. */
  function Substituted(msg: string, subs: seq<string>): string
  {
    if subs == [] then msg
    else ReplaceAll(Substituted(msg, subs[..|subs| - 1]), Placeholder(|subs|), subs[|subs| - 1])
  }

  /** The list the substitution loop runs over. */
  function SubList(s: Substitutions): seq<string>
  {
    match s
    case NoSubs => []
    case One(x) => if x == "" then [] else [x]
    case Many(xs) => xs
  }

  /** What `getMessage` returns. */
  function Localized(catalogue: Catalogue, key: string, s: Substitutions): string
  {
    if catalogue.None? || key !in catalogue.value then key
    else Substituted(catalogue.value[key], SubList(s))
  }

  /** `getMessage`: the key itself when nothing is loaded or the key is
      unknown, else the catalogue text with substitution i replacing every
      `$i`, for i = 1, 2, ... in order. */
  method GetMessage(catalogue: Catalogue, key: string, s: Substitutions) returns (r: string)
    ensures r == Localized(catalogue, key, s)
  {
    if catalogue.None? || key !in catalogue.value {
      return key;
    }
    var subs := SubList(s);
    r := catalogue.value[key];
    for i := 0 to |subs|
      invariant r == Substituted(catalogue.value[key], subs[..i])
    {
      assert subs[..i + 1][..i] == subs[..i];
      r := ReplaceAll(r, Placeholder(i + 1), subs[i]);
    }
    assert subs[..|subs|] == subs;
  }

  /** An unknown key (or an empty catalogue) is returned as is, whatever the
      substitutions. */
  lemma UnknownKey(catalogue: Catalogue, key: string, s: Substitutions)
    requires catalogue.None? || key !in catalogue.value
    ensures Localized(catalogue, key, s) == key
  {
  }

  /** A message without `$` is returned verbatim, whatever the
      substitutions. */
  lemma {:induction false} NoPlaceholders(msg: string, subs: seq<string>)
    requires '$' !in msg
    ensures Substituted(msg, subs) == msg
  {
    if subs != [] {
      NoPlaceholders(msg, subs[..|subs| - 1]);
      ReplaceAllNone(msg, Placeholder(|subs|), subs[|subs| - 1]);
    }
  }

  /** A message with one `$1` placeholder, and no other `$`, gets the single
      substitution spliced in exactly there. */
  lemma SingleSubstitution(catalogue: map<string, string>, key: string, a: string, b: string, x: string)
    requires key in catalogue && catalogue[key] == a + "$1" + b
    requires '$' !in a && '$' !in b && x != ""
    ensures Localized(Some(catalogue), key, One(x)) == a + x + b
  {
    var p := Placeholder(1);
    assert p == "$1";
    assert [x][..0] == [];
    assert a + "$1" + b == a + ("$1" + b);
    var msg := a + "$1" + b;
    assert SubList(One(x)) == [x];
    assert Substituted(msg, [x]) == ReplaceAll(Substituted(msg, []), p, x);
    ReplaceAllSkip(a, "$1" + b, p, x);
    ReplaceAllHit(b, p, x);
    ReplaceAllNone(b, p, x);
    assert ReplaceAll(msg, p, x) == a + (x + b);
  }

  /** `cachedMessages?.<key>?.message || fallback`: the catalogue text,
      unless nothing is loaded, the key is unknown or its text is empty. */
  function TemplateOr(catalogue: Catalogue, key: string, fallback: string): (t: string)
    ensures t == fallback || (catalogue.Some? && key in catalogue.value && t == catalogue.value[key] != "")
    ensures catalogue.None? || key !in catalogue.value ==> t == fallback
  {
    if catalogue.Some? && key in catalogue.value && catalogue.value[key] != "" then catalogue.value[key]
    else fallback
  }

  /** A button label built from a template with `split("$1")`: the first
      piece goes before the Robux icon, and " " + the amount + the second
      piece (empty when the template has no `$1`) after it. */
  function LabelAround(template: string, amount: string): (r: (string, string))
  {
    var tail := SecondPiece(template, "$1");
    (Before(template, "$1"), " " + amount + (if tail.Some? then tail.value else ""))
  }

  /** A template `a$1b` puts `a` before the icon and the amount and `b`
      after it. */
  lemma LabelAroundOf(a: string, b: string, amount: string)
    requires '$' !in a && !Contains(b, "$1")
    ensures LabelAround(a + "$1" + b, amount) == (a, " " + amount + b)
  {
    SplitAt(a, "$1", b);
  }

  /** A template without `$1` is all prefix: the amount comes last. */
  lemma LabelWithoutPlaceholder(template: string, amount: string)
    requires !Contains(template, "$1")
    ensures LabelAround(template, amount) == (template, " " + amount)
  {
    assert " " + amount + "" == " " + amount;
  }
}
