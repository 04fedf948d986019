/** The domains whose rules apply to a sender address: the address's domain and its parents,
    down to the registrable root that the public suffix list gives. */
module CandidateDomains {
  import opened Text
  import opened Wrappers

  // ---------- syntax ----------

  predicate AlphaNum(c: char) {
    'a' <= c <= 'z' || '0' <= c <= '9'
  }

  /** One label: 1 to 63 letters, digits and hyphens, with no hyphen at either end. */
  predicate LabelOk(part: string) {
    && 1 <= |part| <= 63
    && AlphaNum(part[0]) && AlphaNum(part[|part| - 1])
    && forall i :: 0 <= i < |part| ==> AlphaNum(part[i]) || part[i] == '-'
  }

  predicate LabelsOk(s: string)
    decreases |s|
  {
    FirstCutIs(s, '.');
    match FirstCut(s, '.')
    case NoCut => LabelOk(s)
    case Cut(first, rest) => LabelOk(first) && LabelsOk(rest)
  }

  /** What the sender-domain expression accepts: at least two labels. */
  predicate DomainOk(s: string) {
    '.' in s && LabelsOk(s)
  }

  /** `s` is `d` or what follows one of its dots. */
  predicate LabelSuffix(d: string, s: string) {
    s == d || exists i :: 0 <= i < |d| && d[i] == '.' && d[i + 1..] == s
  }

  // ---------- the enumeration ----------

  /** The suffixes of `d` from itself to `root`, one label shorter each time. */
  function SuffixesTo(d: string, root: string): seq<string>
    decreases |d|
  {
    var dot := Index(d, '.');
    if d == root || dot < 0 || dot + 1 >= |d| then [d] else [d] + SuffixesTo(d[dot + 1..], root)
  }

  predicate Shrinking(out: seq<string>) {
    forall i, j :: 0 <= i < j < |out| ==> |out[i]| > |out[j]|
  }

  lemma FirstDotSuffix(d: string, s: string)
    requires Index(d, '.') >= 0
    ensures LabelSuffix(d, s) <==> s == d || LabelSuffix(d[Index(d, '.') + 1..], s)
  {
    IndexIsFirst(d, '.');
    var dot := Index(d, '.');
    var rest := d[dot + 1..];
    assert rest == d[dot + 1..] && d[dot] == '.';
    if LabelSuffix(d, s) && s != d {
      var i :| 0 <= i < |d| && d[i] == '.' && d[i + 1..] == s;
      if i > dot {
        assert rest[i - dot - 1] == '.' && rest[i - dot - 1 + 1..] == s;
      }
    }
    if LabelSuffix(rest, s) && s != rest {
      var i :| 0 <= i < |rest| && rest[i] == '.' && rest[i + 1..] == s;
      assert d[dot + 1 + i] == '.' && d[dot + 1 + i + 1..] == s;
    }
  }

  lemma SuffixIsShorter(d: string, s: string)
    requires LabelSuffix(d, s)
    ensures |s| <= |d| && (s != d ==> |s| < |d|)
  {
  }

  lemma ProperSuffixHasDot(d: string, s: string)
    requires LabelSuffix(d, s) && s != d && s != ""
    ensures 0 <= Index(d, '.') && Index(d, '.') + 1 < |d|
    ensures LabelSuffix(d[Index(d, '.') + 1..], s)
  {
    IndexIsFirst(d, '.');
    FirstDotSuffix(d, s);
    SuffixIsShorter(d[Index(d, '.') + 1..], s);
  }

  lemma SuffixesStep(d: string, root: string)
    requires LabelSuffix(d, root) && root != "" && d != root
    ensures 0 <= Index(d, '.') && Index(d, '.') + 1 < |d|
    ensures var rest := d[Index(d, '.') + 1..];
            LabelSuffix(rest, root) && SuffixesTo(d, root) == [d] + SuffixesTo(rest, root)
  {
    ProperSuffixHasDot(d, root);
  }

  /** The enumeration lists exactly the label suffixes that are no shorter than the root. */
  lemma {:induction false} SuffixesAreExact(d: string, root: string)
    requires LabelSuffix(d, root) && root != ""
    ensures forall s :: s in SuffixesTo(d, root) <==> LabelSuffix(d, s) && |s| >= |root|
    decreases |d|
  {
    hide LabelSuffix, Index, SuffixesTo;
    if d == root {
      SuffixesEnd(root);
      forall s ensures s in [d] <==> LabelSuffix(d, s) && |s| >= |root| {
        if LabelSuffix(d, s) { SuffixIsShorter(d, s); }
      }
    } else {
      SuffixesStep(d, root);
      SuffixIsShorter(d, root);
      var rest := d[Index(d, '.') + 1..];
      SuffixesAreExact(rest, root);
      forall s ensures s in [d] + SuffixesTo(rest, root) <==> LabelSuffix(d, s) && |s| >= |root| {
        FirstDotSuffix(d, s);
      }
    }
  }

  /** It starts with the domain itself and gets less specific with every entry. */
  lemma {:induction false} SuffixesShrink(d: string, root: string)
    requires LabelSuffix(d, root) && root != ""
    ensures SuffixesTo(d, root) != [] && SuffixesTo(d, root)[0] == d
    ensures Shrinking(SuffixesTo(d, root))
    decreases |d|
  {
    hide LabelSuffix, Index;
    if d != root {
      SuffixesStep(d, root);
      var rest := d[Index(d, '.') + 1..];
      SuffixesShrink(rest, root);
      var tail := SuffixesTo(rest, root);
      assert forall i :: 0 < i < |tail| ==> |tail[0]| > |tail[i]|;
      assert forall i :: 0 <= i < |tail| ==> |tail[i]| < |d|;
    }
  }

  /** The loop that cuts one label at a time. */
  method WalkToRoot(domain: string, root: string) returns (out: seq<string>)
    requires LabelSuffix(domain, root) && root != ""
    ensures out == SuffixesTo(domain, root)
  {
    SuffixesEnd(root);
    hide LabelSuffix, Index, SuffixesTo;
    out := [domain];
    var current := domain;
    while current != root
      invariant LabelSuffix(current, root)
      invariant out != [] && out[..|out| - 1] + SuffixesTo(current, root) == SuffixesTo(domain, root)
      invariant out[|out| - 1] == current
      decreases |current|
    {
      var dot := Index(current, '.');
      SuffixesStep(current, root);
      if dot < 0 || dot + 1 >= |current| {
        break;
      }
      ghost var before := out;
      current := current[dot + 1..];
      out := out + [current];
      assert out[..|out| - 1] == before[..|before| - 1] + [before[|before| - 1]];
    }
    assert out == out[..|out| - 1] + [out[|out| - 1]];
  }

  lemma SuffixesEnd(root: string)
    ensures SuffixesTo(root, root) == [root]
  {
  }

  // ---------- normal forms ----------

  predicate PlainChar(c: char) {
    !('A' <= c <= 'Z') && !Space(c)
  }

  /** No upper-case letter and no white space anywhere. */
  predicate Plain(s: string) {
    forall i :: 0 <= i < |s| ==> PlainChar(s[i])
  }

  lemma PlainIsNormal(s: string)
    requires Plain(s)
    ensures Normal(s) == s
  {
    if s != "" {
      assert PlainChar(s[0]) && PlainChar(s[|s| - 1]);
    }
    assert TrimSpace(s) == s;
    assert Lower(s) == s;
  }

  predicate DomainChar(c: char) {
    AlphaNum(c) || c == '-' || c == '.'
  }

  lemma {:induction false} LabelsAreDomainChars(s: string)
    requires LabelsOk(s)
    ensures forall i :: 0 <= i < |s| ==> DomainChar(s[i])
    decreases |s|
  {
    hide FirstCut;
    FirstCutIs(s, '.');
    if FirstCut(s, '.').Cut? {
      LabelsAreDomainChars(FirstCut(s, '.').right);
    }
  }

  lemma {:induction false} LabelsEndInAlphaNum(s: string)
    requires LabelsOk(s)
    ensures s != "" && AlphaNum(s[0]) && AlphaNum(s[|s| - 1])
    decreases |s|
  {
    hide FirstCut;
    FirstCutIs(s, '.');
    if FirstCut(s, '.').Cut? {
      LabelsEndInAlphaNum(FirstCut(s, '.').right);
    }
  }

  predicate DotOrSpace(c: char) {
    c == '.' || c == ' '
  }

  /** The domain that the enumeration starts from. */
  function CleanDomain(domain: string): string {
    Lower(Trim(domain, DotOrSpace))
  }

  lemma CleanDomainKeeps(d: string)
    requires DomainOk(d)
    ensures CleanDomain(d) == d && Plain(d) && '@' !in d && '*' !in d
  {
    LabelsAreDomainChars(d);
    LabelsEndInAlphaNum(d);
    hide LabelsOk;
    assert Trimmed(d, DotOrSpace);
    assert Trim(d, DotOrSpace) == d;
    assert Lower(d) == d;
  }

  lemma SuffixKeepsChars(domain: string, s: string)
    requires LabelSuffix(domain, s)
    ensures Plain(domain) ==> Plain(s)
    ensures '*' !in domain ==> '*' !in s
  {
    if s != domain {
      var i :| 0 <= i < |domain| && domain[i] == '.' && domain[i + 1..] == s;
      forall j | 0 <= j < |s| ensures s[j] == domain[i + 1 + j] {
      }
    }
  }

  function Floor(domain: string, psl: string -> Option<string>): string {
    if psl(domain).Some? then psl(domain).value else domain
  }

  /** The public suffix list answers with a label suffix of the domain, or not at all. */
  predicate SuffixAnswer(domain: string, psl: string -> Option<string>) {
    psl(domain).Some? ==> psl(domain).value != "" && LabelSuffix(domain, psl(domain).value)
  }

  method CandidatesOf(raw: string, psl: string -> Option<string>) returns (out: seq<string>)
    requires SuffixAnswer(CleanDomain(raw), psl)
    ensures var domain := CleanDomain(raw);
            && (!DomainOk(domain) ==> out == [])
            && (DomainOk(domain) ==>
                  && (forall s :: s in out <==> LabelSuffix(domain, s) && |s| >= |Floor(domain, psl)|)
                  && Shrinking(out) && out != [] && out[0] == domain)
  {
    var domain := CleanDomain(raw);
    if !DomainOk(domain) {
      return [];
    }
    CleanDomainKeeps(domain);
    var floor := Floor(domain, psl);
    assert LabelSuffix(domain, floor) && floor != "";
    forall s | LabelSuffix(domain, s) ensures Normal(s) == s {
      SuffixKeepsChars(domain, s);
      PlainIsNormal(s);
    }
    hide LabelSuffix, SuffixesTo, Normal, CleanDomain, DomainOk, UniqueLower;
    out := WalkToRoot(domain, floor);
    SuffixesAreExact(domain, floor);
    SuffixesShrink(domain, floor);
    ShrinkingIsDistinct(out);
    assert "" !in out;
    UniqueLowerFixes(out);
    out := UniqueLowerStrings(out);
  }

  lemma ShrinkingIsDistinct(out: seq<string>)
    requires Shrinking(out)
    ensures forall i, j :: 0 <= i < j < |out| ==> out[i] != out[j]
  {
    forall i, j | 0 <= i < j < |out| ensures out[i] != out[j] {
      assert |out[i]| > |out[j]|;
    }
  }

  // ---------- patterns of an address ----------

  /** The stored spellings of a rule for domain `d`. */
  function Spellings(d: string): seq<string> {
    ["*@" + d, d, "@" + d]
  }

  predicate Spelled(ds: seq<string>, p: string) {
    exists d :: d in ds && p in Spellings(d)
  }

  lemma SpelledSnoc(ds: seq<string>, d: string, p: string)
    ensures Spelled(ds + [d], p) <==> Spelled(ds, p) || p in Spellings(d)
  {
    assert d in ds + [d];
    if Spelled(ds, p) {
      var e :| e in ds && p in Spellings(e);
      assert e in ds + [d];
    }
  }

  lemma SpelledStep(ds: seq<string>, k: nat)
    requires k < |ds|
    ensures forall p :: Spelled(ds[..k + 1], p) <==> Spelled(ds[..k], p) || p in Spellings(ds[k])
  {
    assert ds[..k + 1] == ds[..k] + [ds[k]];
    forall p ensures Spelled(ds[..k + 1], p) <==> Spelled(ds[..k], p) || p in Spellings(ds[k]) {
      SpelledSnoc(ds[..k], ds[k], p);
    }
  }

  lemma NothingSpelledEmpty(ds: seq<string>)
    requires "" !in ds
    ensures !Spelled(ds, "")
  {
  }

  // ---------- the address ----------

  function DomainPart(addr: string): string {
    var at := LastIndex(addr, '@');
    if at < 0 then Lower(TrimSpace(addr)) else Lower(TrimSpace(addr[at + 1..]))
  }

  /** `parse` is the mail parser's address, if it finds one. */
  function NormalizeSender(value: string, parse: string -> Option<string>): string {
    var trimmed := TrimSpace(value);
    Normal(if parse(trimmed).Some? && parse(trimmed).value != "" then parse(trimmed).value else trimmed)
  }

  lemma NormalTwice(s: string)
    ensures Normal(Normal(s)) == Normal(s)
  {
    var t := TrimSpace(s);
    TrimTrims(s, Space);
    assert t != "" ==> !Space(Lower(t)[0]) && !Space(Lower(t)[|t| - 1]);
    assert Trimmed(Lower(t), Space);
    assert TrimSpace(Lower(t)) == Lower(t);
    assert Lower(Lower(t)) == Lower(t);
  }

  /** The patterns a rule may have to match the address. */
  ghost predicate Matching(addr: string, domain: string, floor: string, p: string) {
    p == addr || (DomainOk(domain) && exists d :: LabelSuffix(domain, d) && |d| >= |floor| && p in Spellings(d))
  }

  lemma SpelledIsMatching(ds: seq<string>, addr: string, domain: string, floor: string)
    requires DomainOk(domain) ==> forall d :: d in ds <==> LabelSuffix(domain, d) && |d| >= |floor|
    requires !DomainOk(domain) ==> ds == []
    ensures forall p :: Matching(addr, domain, floor, p) <==> p == addr || Spelled(ds, p)
  {
  }

  lemma SpellingsAreNormal(ds: seq<string>, domain: string, p: string)
    requires DomainOk(domain) && (forall d :: d in ds ==> LabelSuffix(domain, d)) && Spelled(ds, p)
    ensures Normal(p) == p
  {
    hide DomainOk, LabelSuffix, Plain, Normal;
    CleanDomainKeeps(domain);
    var d :| d in ds && p in Spellings(d);
    SuffixKeepsChars(domain, d);
    PlainSpellings(d, p);
    PlainIsNormal(p);
  }

  lemma PlainSpellings(d: string, p: string)
    requires Plain(d) && p in Spellings(d)
    ensures Plain(p)
  {
  }

  /** The address itself and every spelling of its candidate domains. */
  method PatternsForAddress(value: string, parse: string -> Option<string>, psl: string -> Option<string>)
    returns (out: seq<string>)
    requires SuffixAnswer(CleanDomain(DomainPart(NormalizeSender(value, parse))), psl)
    ensures var addr := NormalizeSender(value, parse);
            var domain := CleanDomain(DomainPart(addr));
            if addr == "" || DomainPart(addr) == "" then out == []
            else forall p :: p in out <==> Matching(addr, domain, Floor(domain, psl), p)
    ensures Distinct(out)
  {
    var addr := NormalizeSender(value, parse);
    var part := DomainPart(addr);
    if addr == "" || part == "" {
      return [];
    }
    ghost var domain := CleanDomain(part);
    var candidates := CandidatesOf(part, psl);
    SpelledIsMatching(candidates, addr, domain, Floor(domain, psl));
    var trimmed := TrimSpace(value);
    NormalTwice(if parse(trimmed).Some? && parse(trimmed).value != "" then parse(trimmed).value else trimmed);
    forall p | Spelled(candidates, p) ensures Normal(p) == p {
      SpellingsAreNormal(candidates, domain, p);
    }
    assert "" !in candidates by { EmptyIsNoCandidate(candidates, domain, psl); }
    hide DomainOk, Matching, Spellings, Spelled, LabelSuffix, Shrinking, CleanDomain, DomainPart, NormalizeSender, Normal,
         UniqueLower, Floor;
    out := [addr];
    SpelledNone();
    for k := 0 to |candidates|
      invariant forall p :: p in out <==> p == addr || Spelled(candidates[..k], p)
    {
      SpelledStep(candidates, k);
      out := out + Spellings(candidates[k]);
    }
    assert candidates[..|candidates|] == candidates;
    NothingSpelledEmpty(candidates);
    UniqueLowerMembers(out);
    out := UniqueLowerStrings(out);
  }

  lemma EmptyIsNoCandidate(ds: seq<string>, domain: string, psl: string -> Option<string>)
    requires SuffixAnswer(domain, psl)
    requires if DomainOk(domain) then forall s :: s in ds <==> LabelSuffix(domain, s) && |s| >= |Floor(domain, psl)| else ds == []
    ensures "" !in ds
  {
  }

  lemma SpelledNone()
    ensures forall p :: !Spelled([], p)
  {
  }

  lemma WildcardSpelling(c: string, d: string)
    requires '*' !in c
    ensures "*@" + d in Spellings(c) <==> c == d
  {
    var p := "*@" + d;
    assert p[0] == '*' && p[2..] == d;
    assert ("*@" + c)[2..] == c;
    assert ("@" + c)[0] == '@';
    assert '*' in p;
  }

  lemma {:induction false} LastIndexIs(s: string, c: char, k: nat)
    requires k < |s| && s[k] == c && forall i :: k < i < |s| ==> s[i] != c
    ensures LastIndex(s, c) == k
  {
  }

  /** The wildcard spelling of a valid domain, taken as an address, lies in that domain. */
  lemma WildcardDomain(d: string)
    requires DomainOk(d)
    ensures CleanDomain(DomainPart("*@" + d)) == d
  {
    CleanDomainKeeps(d);
    PlainIsNormal(d);
    var addr := "*@" + d;
    assert addr[1] == '@' && addr[2..] == d;
    LastIndexIs(addr, '@', 1);
  }

  /** A wildcard rule for a valid domain `d` matches an address, whatever the address looks like,
      exactly when `d` is one of the candidates of the address's domain. */
  lemma WildcardMatchesExactly(out: seq<string>, addr: string, psl: string -> Option<string>, d: string)
    requires var domain := CleanDomain(DomainPart(addr));
             && SuffixAnswer(domain, psl)
             && forall p :: p in out <==> Matching(addr, domain, Floor(domain, psl), p)
    requires DomainOk(d)
    ensures var domain := CleanDomain(DomainPart(addr));
            "*@" + d in out <==> DomainOk(domain) && LabelSuffix(domain, d) && |d| >= |Floor(domain, psl)|
  {
    var domain := CleanDomain(DomainPart(addr));
    if DomainOk(domain) {
      CleanDomainKeeps(domain);
      forall c | LabelSuffix(domain, c) ensures "*@" + d in Spellings(c) <==> c == d {
        SuffixKeepsChars(domain, c);
        WildcardSpelling(c, d);
      }
    }
    if addr == "*@" + d {
      WildcardDomain(d);
      SuffixIsShorter(d, Floor(d, psl));
    }
  }
}
