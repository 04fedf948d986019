/** The two text normal forms by which messages are recognized again: the subject fingerprint of
    the learning table and the normalized text of a campaign. */
module Fingerprints {
  import opened Text

  // ---------- the subject of a message ----------

  const MAX_TOKENS: nat := 8
  const MIN_TOKEN: nat := 3

  predicate TokenChar(c: char) {
    'a' <= c <= 'z' || '0' <= c <= '9'
  }

  function Tokens(subject: string): seq<string> {
    Runs(Lower(subject), "", TokenChar)
  }

  function LongTokens(tokens: seq<string>): seq<string> {
    if tokens == [] then []
    else LongTokens(tokens[..|tokens| - 1]) + if |tokens[|tokens| - 1]| >= MIN_TOKEN then [tokens[|tokens| - 1]] else []
  }

  function Kept(tokens: seq<string>): seq<string> {
    var long := LongTokens(tokens);
    if |long| > MAX_TOKENS then long[..MAX_TOKENS] else long
  }

  function Fingerprint(subject: string): string {
    Join(Kept(Tokens(subject)))
  }

  lemma {:induction false} LongTokensGrow(tokens: seq<string>, n: nat)
    requires n <= |tokens|
    ensures |LongTokens(tokens[..n])| <= |LongTokens(tokens)|
    ensures LongTokens(tokens[..n]) == LongTokens(tokens)[..|LongTokens(tokens[..n])|]
    decreases |tokens|
  {
    if n < |tokens| {
      LongTokensGrow(tokens[..|tokens| - 1], n);
      assert tokens[..|tokens| - 1][..n] == tokens[..n];
    } else {
      assert tokens[..n] == tokens;
    }
  }

  lemma LongTokensStep(tokens: seq<string>, k: nat)
    requires k < |tokens|
    ensures LongTokens(tokens[..k + 1])
            == LongTokens(tokens[..k]) + if |tokens[k]| >= MIN_TOKEN then [tokens[k]] else []
  {
    assert tokens[..k + 1][..k] == tokens[..k];
  }

  /** The eighth long token settles the fingerprint. */
  lemma KeptEarly(tokens: seq<string>, n: nat)
    requires n <= |tokens|
    ensures |LongTokens(tokens[..n])| == MAX_TOKENS ==> Kept(tokens) == LongTokens(tokens[..n])
  {
    LongTokensGrow(tokens, n);
    assert LongTokens(tokens)[..|LongTokens(tokens)|] == LongTokens(tokens);
  }

  method SubjectFingerprint(subject: string) returns (fingerprint: string)
    ensures fingerprint == Fingerprint(subject)
  {
    var tokens := Tokens(subject);
    if |tokens| == 0 {
      return "";
    }
    var kept: seq<string> := [];
    var k := 0;
    while k < |tokens|
      invariant k <= |tokens|
      invariant kept == LongTokens(tokens[..k]) && |kept| < MAX_TOKENS
    {
      hide LongTokens, Kept;
      LongTokensStep(tokens, k);
      KeptEarly(tokens, k + 1);
      k := k + 1;
      if |tokens[k - 1]| <= 2 {
        continue;
      }
      kept := kept + [tokens[k - 1]];
      if |kept| == MAX_TOKENS {
        break;
      }
    }
    assert tokens[..|tokens|] == tokens;
    fingerprint := Join(kept);
  }

  predicate Long(w: string) {
    Word(w, TokenChar) && |w| >= MIN_TOKEN
  }

  lemma {:induction false} LongTokensAreLong(tokens: seq<string>)
    requires forall w :: w in tokens ==> Word(w, TokenChar)
    ensures forall w :: w in LongTokens(tokens) ==> Long(w)
    decreases |tokens|
  {
    if tokens != [] {
      LongTokensAreLong(tokens[..|tokens| - 1]);
    }
  }

  lemma {:induction false} LongTokensFixed(tokens: seq<string>)
    requires forall w :: w in tokens ==> Long(w)
    ensures LongTokens(tokens) == tokens
    decreases |tokens|
  {
    if tokens != [] {
      var last := tokens[|tokens| - 1];
      assert last in tokens && tokens == tokens[..|tokens| - 1] + [last];
      LongTokensFixed(tokens[..|tokens| - 1]);
    }
  }

  lemma KeptAreLong(subject: string)
    ensures var kept := Kept(Tokens(subject));
            |kept| <= MAX_TOKENS && forall w :: w in kept ==> Long(w)
  {
    RunsAreWords(Lower(subject), "", TokenChar);
    LongTokensAreLong(Tokens(subject));
  }

  lemma {:induction false} JoinIsLower(words: seq<string>)
    requires forall w :: w in words ==> Word(w, TokenChar)
    ensures Lower(Join(words)) == Join(words)
  {
    var s := Join(words);
    if words != [] {
      assert words[0] in words;
      JoinIsLower(words[1..]);
      forall i | 0 <= i < |s| ensures LowerChar(s[i]) == s[i] {
        if i < |words[0]| {
        } else if i > |words[0]| {
          assert s[i] == Join(words[1..])[i - |words[0]| - 1];
          assert Lower(Join(words[1..]))[i - |words[0]| - 1] == s[i];
        }
      }
    }
  }

  lemma TokensOfJoin(words: seq<string>)
    requires |words| <= MAX_TOKENS && forall w :: w in words ==> Long(w)
    ensures Kept(Tokens(Join(words))) == words
  {
    JoinIsLower(words);
    RunsOfJoin(words, TokenChar);
    LongTokensFixed(words);
  }

  /** A fingerprint is its own fingerprint. */
  lemma FingerprintIsStable(subject: string)
    ensures Fingerprint(Fingerprint(subject)) == Fingerprint(subject)
  {
    KeptAreLong(subject);
    TokensOfJoin(Kept(Tokens(subject)));
  }

  /** Two subjects share a row of the learning table exactly when their first eight tokens of
      three characters or more agree; the separator never makes two token lists look alike. */
  lemma SameFingerprintExactly(a: string, b: string)
    ensures Fingerprint(a) == Fingerprint(b) <==> Kept(Tokens(a)) == Kept(Tokens(b))
  {
    KeptAreLong(a);
    KeptAreLong(b);
    TokensOfJoin(Kept(Tokens(a)));
    TokensOfJoin(Kept(Tokens(b)));
  }

  // ---------- the text of a campaign ----------

  /** The letters and digits of Unicode, as far as the normal form asks for them. */
  datatype Alphabet = Alphabet(letter: char -> bool, digit: char -> bool)

  const PUNCTUATION := "@.-_"

  /** A digit is no letter, no white space and no character that a URL prefix or the kept
      punctuation uses. */
  ghost predicate Usual(abc: Alphabet) {
    forall c :: abc.digit(c) ==> !abc.letter(c) && !Space(c) && !('A' <= c <= 'Z') && c !in "https://www.@-_"
  }

  function Shape(abc: Alphabet, c: char): char {
    if abc.letter(c) then c
    else if abc.digit(c) then '#'
    else if c in PUNCTUATION then c
    else ' '
  }

  function Shapes(abc: Alphabet, s: string): (r: string)
    ensures |r| == |s| && forall i :: 0 <= i < |s| ==> r[i] == Shape(abc, s[i])
  {
    seq(|s|, i requires 0 <= i < |s| => Shape(abc, s[i]))
  }

  predicate UrlField(field: string) {
    "http://" <= field || "https://" <= field || "www." <= field
  }

  function Canonical(field: string): string {
    if UrlField(field) then "<url>" else field
  }

  /** The builder loop from a text `b` that holds `runes` counted characters. */
  function Scan(abc: Alphabet, fields: seq<string>, b: string, runes: nat, max: nat): string
    requires runes <= max
  {
    if fields == [] then Join(Fields(b))
    else
      var field := Canonical(fields[0]);
      if runes + |field| > max then TrimSpace(b + Shapes(abc, field[..max - runes]))
      else Scan(abc, fields[1..], b + Shapes(abc, field) + " ", runes + |field|, max)
  }

  function NormalText(abc: Alphabet, value: string, max: nat): string {
    Scan(abc, Fields(Lower(value)), "", 0, max)
  }

  method NormalizeCampaignText(abc: Alphabet, value: string, max: nat) returns (text: string)
    ensures text == NormalText(abc, value, max)
  {
    hide TrimSpace, Fields, UrlField;
    var fields := Fields(Lower(value));
    var b, runes := "", 0;
    for k := 0 to |fields|
      invariant runes <= max
      invariant Scan(abc, fields[k..], b, runes, max) == NormalText(abc, value, max)
    {
      assert fields[k..][0] == fields[k] && fields[k..][1..] == fields[k + 1..];
      var field := Canonical(fields[k]);
      ghost var b0, runes0 := b, runes;
      for i := 0 to |field|
        invariant runes == runes0 + i <= max
        invariant b == b0 + Shapes(abc, field[..i])
      {
        if runes >= max {
          return TrimSpace(b);
        }
        assert field[..i + 1] == field[..i] + [field[i]];
        ShapesSnoc(abc, field[..i], field[i]);
        b := b + [Shape(abc, field[i])];
        runes := runes + 1;
      }
      assert field[..|field|] == field;
      b := b + " ";
    }
    text := Join(Fields(b));
  }

  lemma ShapesSnoc(abc: Alphabet, s: string, c: char)
    ensures Shapes(abc, s + [c]) == Shapes(abc, s) + [Shape(abc, c)]
  {
  }

  /** The same text up to which digits it has. */
  predicate SameButDigits(abc: Alphabet, a: string, b: string) {
    |a| == |b| && forall i :: 0 <= i < |a| ==> a[i] == b[i] || (abc.digit(a[i]) && abc.digit(b[i]))
  }

  /** The same field up to its digits, or two URLs. */
  predicate SameField(abc: Alphabet, f: string, g: string) {
    SameButDigits(abc, f, g) || (UrlField(f) && UrlField(g))
  }

  ghost predicate SameFields(abc: Alphabet, fs: seq<string>, gs: seq<string>) {
    |fs| == |gs| && forall i :: 0 <= i < |fs| ==> SameField(abc, fs[i], gs[i])
  }

  lemma PrefixIgnoresDigits(abc: Alphabet, prefix: string, f: string, g: string)
    requires SameButDigits(abc, f, g) && forall i :: 0 <= i < |prefix| ==> !abc.digit(prefix[i])
    ensures prefix <= f <==> prefix <= g
  {
  }

  lemma ShapesIgnoreDigits(abc: Alphabet, f: string, g: string, n: nat)
    requires Usual(abc) && SameButDigits(abc, f, g) && n <= |f|
    ensures Shapes(abc, f[..n]) == Shapes(abc, g[..n])
  {
    forall i | 0 <= i < n ensures Shape(abc, f[i]) == Shape(abc, g[i]) {
      if f[i] != g[i] {
        assert abc.digit(f[i]) && abc.digit(g[i]);
      }
    }
  }

  lemma CanonicalShapes(abc: Alphabet, f: string, g: string, n: nat)
    requires Usual(abc) && SameField(abc, f, g)
    ensures |Canonical(f)| == |Canonical(g)|
    ensures n <= |Canonical(f)| ==> Shapes(abc, Canonical(f)[..n]) == Shapes(abc, Canonical(g)[..n])
  {
    hide Usual, Shapes;
    PrefixesHaveNoDigits(abc);
    if SameButDigits(abc, f, g) {
      if n <= |f| { ShapesIgnoreDigits(abc, f, g, n); }
      PrefixIgnoresDigits(abc, "http://", f, g);
      PrefixIgnoresDigits(abc, "https://", f, g);
      PrefixIgnoresDigits(abc, "www.", f, g);
    }
  }

  lemma PrefixesHaveNoDigits(abc: Alphabet)
    requires Usual(abc)
    ensures forall p :: p in ["http://", "https://", "www."] ==> forall i :: 0 <= i < |p| ==> !abc.digit(p[i])
  {
    var all := "https://www.@-_";
    assert all[0] == 'h' && all[1] == 't' && all[3] == 'p' && all[4] == 's' && all[5] == ':' && all[6] == '/'
           && all[8] == 'w' && all[11] == '.';
  }

  /** The normal form sees neither the digits of a text nor what its URLs are. */
  lemma {:induction false} ScanIgnores(abc: Alphabet, fs: seq<string>, gs: seq<string>, b: string, runes: nat, max: nat)
    requires Usual(abc) && SameFields(abc, fs, gs) && runes <= max
    ensures Scan(abc, fs, b, runes, max) == Scan(abc, gs, b, runes, max)
  {
    hide Usual, SameField, Canonical, TrimSpace, Fields;
    if fs != [] {
      var f, g := Canonical(fs[0]), Canonical(gs[0]);
      CanonicalShapes(abc, fs[0], gs[0], |f|);
      assert f[..|f|] == f && g[..|g|] == g;
      if runes + |f| > max {
        CanonicalShapes(abc, fs[0], gs[0], max - runes);
      } else {
        ScanIgnores(abc, fs[1..], gs[1..], b + Shapes(abc, f) + " ", runes + |f|, max);
      }
    }
  }

  lemma {:induction false} RunsIgnoreDigits(abc: Alphabet, s: string, t: string, c: string, d: string, keep: char -> bool)
    requires SameButDigits(abc, s, t) && SameButDigits(abc, c, d)
    requires forall x :: abc.digit(x) ==> keep(x)
    ensures SameFields(abc, Runs(s, c, keep), Runs(t, d, keep))
    decreases |s|
  {
    if s != [] {
      if keep(s[0]) {
        RunsIgnoreDigits(abc, s[1..], t[1..], c + [s[0]], d + [t[0]], keep);
      } else {
        RunsIgnoreDigits(abc, s[1..], t[1..], "", "", keep);
      }
    }
  }

  /** Two texts that differ only in letter case and in which digits they have are one campaign. */
  lemma DigitsAndCaseDoNotMatter(abc: Alphabet, x: string, y: string, max: nat)
    requires Usual(abc) && SameButDigits(abc, Lower(x), Lower(y))
    ensures NormalText(abc, x, max) == NormalText(abc, y, max)
  {
    RunsIgnoreDigits(abc, Lower(x), Lower(y), "", "", c => !Space(c));
    ScanIgnores(abc, Fields(Lower(x)), Fields(Lower(y)), "", 0, max);
  }

  /** Nor does it matter where a URL leads. */
  lemma UrlsDoNotMatter(abc: Alphabet, x: string, y: string, max: nat)
    requires Usual(abc) && SameFields(abc, Fields(Lower(x)), Fields(Lower(y)))
    ensures NormalText(abc, x, max) == NormalText(abc, y, max)
  {
    ScanIgnores(abc, Fields(Lower(x)), Fields(Lower(y)), "", 0, max);
  }
}
