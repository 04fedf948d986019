/** Which URLs of a message are sent to the browser sandbox, and in which order. */
module SandboxUrls {
  import opened Text
  import opened Wrappers

  const MAX_URL_SCANS: nat := 3

  /** What the word lists find in a URL. */
  datatype Signals = Signals(credential: bool, redirect: bool, asset: bool, pixel: bool, optOut: bool)

  /** A parsed http or https URL.  The normalized form leaves out the query, the signals do not. */
  datatype Page = Page(normalized: string, signals: Signals)

  datatype Candidate = Candidate(raw: string, score: int, order: nat)

  function Priority(s: Signals): int {
    10
    + (if s.credential then 100 else 0)
    + (if s.redirect then 35 else 0)
    - (if s.asset then 200 else 0)
    - (if s.pixel then 150 else 0)
    - (if s.optOut then 250 else 0)
  }

  /** The weights amount to a veto: one asset, pixel or opt-out sign always outweighs the rest. */
  lemma PriorityIsVeto(s: Signals)
    ensures Priority(s) > 0 <==> !s.asset && !s.pixel && !s.optOut
  {
  }

  // ---------- candidates ----------

  predicate Parses(urls: seq<string>, view: string -> Option<Page>, i: nat)
    requires i < |urls|
  {
    view(TrimSpace(urls[i])).Some?
  }

  function PageAt(urls: seq<string>, view: string -> Option<Page>, i: nat): Page
    requires i < |urls| && Parses(urls, view, i)
  {
    view(TrimSpace(urls[i])).value
  }

  predicate SeenBefore(urls: seq<string>, view: string -> Option<Page>, n: nat, normalized: string)
    requires n <= |urls|
  {
    exists j :: 0 <= j < n && SameNormal(urls, view, j, normalized)
  }

  predicate SameNormal(urls: seq<string>, view: string -> Option<Page>, i: nat, normalized: string)
    requires i < |urls|
  {
    Parses(urls, view, i) && PageAt(urls, view, i).normalized == normalized
  }

  /** The `i`-th URL parses and no earlier one has the same normalized form. */
  predicate FirstOccurrence(urls: seq<string>, view: string -> Option<Page>, i: nat)
    requires i < |urls|
  {
    && Parses(urls, view, i)
    && !SeenBefore(urls, view, i, PageAt(urls, view, i).normalized)
  }

  function CandidateAt(urls: seq<string>, view: string -> Option<Page>, i: nat): Candidate
    requires i < |urls| && Parses(urls, view, i)
  {
    Candidate(TrimSpace(urls[i]), Priority(PageAt(urls, view, i).signals), i)
  }

  /** The first occurrences among the first `n` URLs. */
  function Firsts(urls: seq<string>, view: string -> Option<Page>, n: nat): seq<Candidate>
    requires n <= |urls|
  {
    if n == 0 then []
    else Firsts(urls, view, n - 1) + if FirstOccurrence(urls, view, n - 1) then [CandidateAt(urls, view, n - 1)] else []
  }

  lemma {:induction false} FirstsMembers(urls: seq<string>, view: string -> Option<Page>, n: nat)
    requires n <= |urls|
    ensures forall c :: c in Firsts(urls, view, n) <==>
              c.order < n && FirstOccurrence(urls, view, c.order) && c == CandidateAt(urls, view, c.order)
  {
    if n > 0 {
      FirstsMembers(urls, view, n - 1);
    }
  }

  predicate DistinctOrders(s: seq<Candidate>) {
    forall i, j :: 0 <= i < j < |s| ==> s[i].order != s[j].order
  }

  lemma {:induction false} FirstsAreDistinct(urls: seq<string>, view: string -> Option<Page>, n: nat)
    requires n <= |urls|
    ensures DistinctOrders(Firsts(urls, view, n))
  {
    hide FirstOccurrence, TrimSpace, Priority;
    if n > 0 {
      FirstsAreDistinct(urls, view, n - 1);
      var before := Firsts(urls, view, n - 1);
      FirstsMembers(urls, view, n - 1);
      forall i | 0 <= i < |before| ensures before[i].order < n - 1 {
        assert before[i] in before;
      }
    }
  }

  // ---------- ranking ----------

  predicate Beats(a: Candidate, b: Candidate) {
    a.score > b.score || (a.score == b.score && a.order < b.order)
  }

  predicate Ordered(s: seq<Candidate>) {
    forall i, j :: 0 <= i < j < |s| ==> Beats(s[i], s[j])
  }

  /** At most three actionable candidates, best first, and every actionable candidate that is
      left out loses against all three of them. */
  ghost predicate TopThree(all: seq<Candidate>, top: seq<Candidate>) {
    && |top| <= MAX_URL_SCANS
    && Ordered(top)
    && (forall c :: c in top ==> c in all && c.score > 0)
    && (forall c :: c in all && c.score > 0 && c !in top ==> |top| == MAX_URL_SCANS && forall t :: t in top ==> Beats(t, c))
  }

  function Insert(c: Candidate, s: seq<Candidate>): seq<Candidate> {
    if s == [] || Beats(c, s[0]) then [c] + s else [s[0]] + Insert(c, s[1..])
  }

  function SortRanked(s: seq<Candidate>): seq<Candidate> {
    if s == [] then [] else Insert(s[|s| - 1], SortRanked(s[..|s| - 1]))
  }

  function Actionable(s: seq<Candidate>): seq<Candidate> {
    if s == [] then [] else Actionable(s[..|s| - 1]) + if s[|s| - 1].score > 0 then [s[|s| - 1]] else []
  }

  function Cut(s: seq<Candidate>): seq<Candidate> {
    if |s| > MAX_URL_SCANS then s[..MAX_URL_SCANS] else s
  }

  function Ranked(urls: seq<string>, view: string -> Option<Page>): seq<Candidate> {
    Cut(Actionable(SortRanked(Firsts(urls, view, |urls|))))
  }

  lemma {:induction false} InsertMembers(c: Candidate, s: seq<Candidate>)
    ensures forall x :: x in Insert(c, s) <==> x == c || x in s
  {
    if s != [] && !Beats(c, s[0]) {
      InsertMembers(c, s[1..]);
      assert s == [s[0]] + s[1..];
    }
  }

  lemma {:induction false} InsertOrders(c: Candidate, s: seq<Candidate>)
    requires Ordered(s) && forall i :: 0 <= i < |s| ==> s[i].order != c.order
    ensures Ordered(Insert(c, s))
  {
    if s != [] && !Beats(c, s[0]) {
      var rest := Insert(c, s[1..]);
      InsertOrders(c, s[1..]);
      InsertMembers(c, s[1..]);
      forall i | 0 <= i < |rest| ensures Beats(s[0], rest[i]) {
        assert rest[i] in rest;
      }
    }
  }

  lemma {:induction false} SortRanks(s: seq<Candidate>)
    requires DistinctOrders(s)
    ensures Ordered(SortRanked(s))
    ensures forall x :: x in SortRanked(s) <==> x in s
    decreases |s|
  {
    if s != [] {
      var rest, last := s[..|s| - 1], s[|s| - 1];
      SortRanks(rest);
      var sorted := SortRanked(rest);
      forall i | 0 <= i < |sorted| ensures sorted[i].order != last.order {
        assert sorted[i] in rest;
      }
      InsertOrders(last, sorted);
      InsertMembers(last, sorted);
      assert s == rest + [last];
    }
  }

  lemma {:induction false} ActionableKeeps(s: seq<Candidate>)
    requires Ordered(s)
    ensures Ordered(Actionable(s))
    ensures forall x :: x in Actionable(s) <==> x in s && x.score > 0
    decreases |s|
  {
    if s != [] {
      var rest, last := s[..|s| - 1], s[|s| - 1];
      ActionableKeeps(rest);
      var kept := Actionable(rest);
      forall i | 0 <= i < |kept| ensures Beats(kept[i], last) {
        assert kept[i] in rest;
      }
      assert s == rest + [last];
    }
  }

  lemma CutIsTop(s: seq<Candidate>, x: Candidate, t: Candidate)
    requires Ordered(s) && x in s && x !in Cut(s) && t in Cut(s)
    ensures Beats(t, x) && |Cut(s)| == MAX_URL_SCANS
  {
    var i :| 0 <= i < |s| && s[i] == x;
    var j :| 0 <= j < |Cut(s)| && Cut(s)[j] == t;
    forall k | 0 <= k < |Cut(s)| ensures s[k] != x {
      assert Cut(s)[k] == s[k] && Cut(s)[k] in Cut(s);
    }
  }

  lemma CutLeavesNone(s: seq<Candidate>, x: Candidate)
    requires x in s && x !in Cut(s)
    ensures |Cut(s)| == MAX_URL_SCANS
  {
  }

  /** Filtering, sorting and cutting gives the top three of the first occurrences. */
  lemma RankedIsTopThree(urls: seq<string>, view: string -> Option<Page>)
    ensures TopThree(Firsts(urls, view, |urls|), Ranked(urls, view))
  {
    var all := Firsts(urls, view, |urls|);
    FirstsAreDistinct(urls, view, |urls|);
    SortRanks(all);
    var kept := Actionable(SortRanked(all));
    ActionableKeeps(SortRanked(all));
    var top := Cut(kept);
    forall c | c in all && c.score > 0 && c !in top
      ensures |top| == MAX_URL_SCANS && forall t :: t in top ==> Beats(t, c)
    {
      CutLeavesNone(kept, c);
      forall t | t in top ensures Beats(t, c) { CutIsTop(kept, c, t); }
    }
  }

  lemma NotEmpty(s: seq<Candidate>, t: seq<Candidate>)
    requires s != [] && forall x :: x in s ==> x in t
    ensures t != []
  {
    assert s[0] in t;
  }

  lemma {:induction false} OrderedIsUnique(s: seq<Candidate>, t: seq<Candidate>)
    requires Ordered(s) && Ordered(t) && forall x :: x in s <==> x in t
    ensures s == t
  {
    if s != [] { NotEmpty(s, t); }
    if t != [] { NotEmpty(t, s); }
    if s != [] {
      assert s[0] in t;
      assert t[0] in s;
      assert s[0] == t[0];
      assert forall x :: x in s <==> x == s[0] || x in s[1..];
      assert forall x :: x in t <==> x == t[0] || x in t[1..];
      assert s[0] !in s[1..] && t[0] !in t[1..];
      OrderedIsUnique(s[1..], t[1..]);
    }
  }

  lemma BetterIsKept(all: seq<Candidate>, s: seq<Candidate>, x: Candidate, c: Candidate)
    requires TopThree(all, s) && c in s && x in all && x.score > 0 && Beats(x, c)
    ensures x in s
  {
  }

  lemma TopThreeIncludes(all: seq<Candidate>, s: seq<Candidate>, t: seq<Candidate>, c: Candidate)
    requires TopThree(all, s) && TopThree(all, t) && c in s
    ensures c in t
  {
    if c !in t {
      assert t[0] in t && t[1] in t && t[2] in t;
      assert Beats(t[0], c) && Beats(t[1], c) && Beats(t[2], c);
      assert Beats(t[0], t[1]) && Beats(t[1], t[2]);
      BetterIsKept(all, s, t[0], c);
      BetterIsKept(all, s, t[1], c);
      BetterIsKept(all, s, t[2], c);
      FourInThree(s, t[0], t[1], t[2], c);
    }
  }

  lemma FourInThree(s: seq<Candidate>, a: Candidate, b: Candidate, c: Candidate, d: Candidate)
    requires a in s && b in s && c in s && d in s
    requires a != b && a != c && a != d && b != c && b != d && c != d
    ensures |s| > 3
  {
    var i :| 0 <= i < |s| && s[i] == a;
    var j :| 0 <= j < |s| && s[j] == b;
    var k :| 0 <= k < |s| && s[k] == c;
    var l :| 0 <= l < |s| && s[l] == d;
  }

  /** Those conditions leave no choice: a different order of work would give the same list. */
  lemma TopThreeIsUnique(all: seq<Candidate>, s: seq<Candidate>, t: seq<Candidate>)
    requires TopThree(all, s) && TopThree(all, t)
    ensures s == t
  {
    forall x ensures x in s <==> x in t {
      if x in s { TopThreeIncludes(all, s, t, x); }
      if x in t { TopThreeIncludes(all, t, s, x); }
    }
    OrderedIsUnique(s, t);
  }

  /** The sandbox never loads two URLs with the same normalized form, nor one with an asset,
      pixel or opt-out sign; and it loads something whenever a first occurrence has none. */
  lemma RankedAreDistinctPages(urls: seq<string>, view: string -> Option<Page>)
    ensures var top := Ranked(urls, view);
            && (forall c :: c in top ==> c.order < |urls| && c.raw == TrimSpace(urls[c.order]) && view(c.raw).Some?)
            && (forall i, j :: 0 <= i < j < |top| ==>
                  view(top[i].raw).value.normalized != view(top[j].raw).value.normalized)
            && (top == [] <==>
                forall i :: 0 <= i < |urls| && FirstOccurrence(urls, view, i) ==>
                  var s := PageAt(urls, view, i).signals; s.asset || s.pixel || s.optOut)
  {
    var top := Ranked(urls, view);
    var all := Firsts(urls, view, |urls|);
    RankedIsTopThree(urls, view);
    FirstsMembers(urls, view, |urls|);
    forall i, j | 0 <= i < j < |top|
      ensures view(top[i].raw).value.normalized != view(top[j].raw).value.normalized
    {
      DistinctPages(urls, view, top[i], top[j]);
    }
    if top == [] {
      forall i | 0 <= i < |urls| && FirstOccurrence(urls, view, i)
        ensures var s := PageAt(urls, view, i).signals; s.asset || s.pixel || s.optOut
      {
        assert CandidateAt(urls, view, i) in all;
        PriorityIsVeto(PageAt(urls, view, i).signals);
      }
    } else {
      assert top[0] in all;
      PriorityIsVeto(PageAt(urls, view, top[0].order).signals);
    }
  }

  lemma DistinctPages(urls: seq<string>, view: string -> Option<Page>, a: Candidate, b: Candidate)
    requires a in Firsts(urls, view, |urls|) && b in Firsts(urls, view, |urls|) && Beats(a, b)
    ensures view(a.raw).Some? && view(b.raw).Some?
    ensures view(a.raw).value.normalized != view(b.raw).value.normalized
  {
    FirstsMembers(urls, view, |urls|);
    assert a.order != b.order;
    assert !SameNormal(urls, view, if a.order < b.order then a.order else b.order,
                       PageAt(urls, view, if a.order < b.order then b.order else a.order).normalized);
  }

  // ---------- the code ----------

  /** The filter that reuses the storage of the slice it reads. */
  method KeepActionable(a: array<Candidate>) returns (n: nat)
    modifies a
    ensures n <= a.Length
    ensures a[..n] == Actionable(old(a[..]))
    ensures a[n..] == old(a[n..])
  {
    n := 0;
    for k := 0 to a.Length
      invariant n <= k
      invariant a[..n] == Actionable(old(a[..])[..k])
      invariant forall i :: n <= i < a.Length ==> a[i] == old(a[i])
    {
      ghost var was := old(a[..]);
      assert was[..k + 1][..k] == was[..k];
      if a[k].score > 0 {
        ghost var kept := a[..n];
        a[n] := a[k];
        n := n + 1;
        assert a[..n] == kept + [was[k]];
      }
    }
    assert old(a[..])[..a.Length] == old(a[..]);
  }

  ghost predicate SeenIs(urls: seq<string>, view: string -> Option<Page>, n: nat, seen: set<string>)
    requires n <= |urls|
  {
    forall x :: x in seen <==> SeenBefore(urls, view, n, x)
  }

  lemma SeenStep(urls: seq<string>, view: string -> Option<Page>, n: nat, seen: set<string>)
    requires n < |urls| && SeenIs(urls, view, n, seen)
    ensures !Parses(urls, view, n) ==> SeenIs(urls, view, n + 1, seen)
    ensures Parses(urls, view, n) ==> SeenIs(urls, view, n + 1, seen + {PageAt(urls, view, n).normalized})
    ensures FirstOccurrence(urls, view, n) <==> Parses(urls, view, n) && PageAt(urls, view, n).normalized !in seen
  {
    forall x ensures SeenBefore(urls, view, n + 1, x) <==> SeenBefore(urls, view, n, x) || SameNormal(urls, view, n, x) {
    }
  }

  lemma SeenStart(urls: seq<string>, view: string -> Option<Page>)
    ensures Firsts(urls, view, 0) == [] && SeenIs(urls, view, 0, {})
  {
  }

  lemma FirstsStep(urls: seq<string>, view: string -> Option<Page>, n: nat)
    requires n < |urls|
    ensures Firsts(urls, view, n + 1) ==
            Firsts(urls, view, n) + if FirstOccurrence(urls, view, n) then [CandidateAt(urls, view, n)] else []
  {
  }

  method CollectFirsts(urls: seq<string>, view: string -> Option<Page>) returns (candidates: seq<Candidate>)
    ensures candidates == Firsts(urls, view, |urls|)
  {
    hide SeenIs, FirstOccurrence, Firsts, TrimSpace, Priority;
    SeenStart(urls, view);
    candidates := [];
    var seen: set<string> := {};
    for order := 0 to |urls|
      invariant candidates == Firsts(urls, view, order)
      invariant SeenIs(urls, view, order, seen)
    {
      SeenStep(urls, view, order, seen);
      FirstsStep(urls, view, order);
      var raw := TrimSpace(urls[order]);
      var page := view(raw);
      if page.None? || page.value.normalized in seen {
        assert page.Some? ==> seen + {page.value.normalized} == seen;
        continue;
      }
      seen := seen + {page.value.normalized};
      candidates := candidates + [Candidate(raw, Priority(page.value.signals), order)];
    }
  }

  function Raws(s: seq<Candidate>): (raws: seq<string>)
    ensures |raws| == |s| && forall i :: 0 <= i < |s| ==> raws[i] == s[i].raw
  {
    if s == [] then [] else [s[0].raw] + Raws(s[1..])
  }

  method PrioritizedSandboxUrls(urls: seq<string>, view: string -> Option<Page>) returns (out: seq<string>)
    ensures out == Raws(Ranked(urls, view))
    ensures |out| <= MAX_URL_SCANS
  {
    hide SortRanked, Actionable, Firsts;
    var candidates := CollectFirsts(urls, view);
    var sorted := SortRanked(candidates);
    var a := new Candidate[|sorted|](i requires 0 <= i < |sorted| => sorted[i]);
    assert a[..] == sorted;
    var n := KeepActionable(a);
    var top := a[..n];
    if |top| > MAX_URL_SCANS {
      top := top[..MAX_URL_SCANS];
    }
    out := [];
    for k := 0 to |top|
      invariant |out| == k && forall i :: 0 <= i < k ==> out[i] == top[i].raw
    {
      out := out + [top[k].raw];
    }
    assert out == Raws(top);
  }
}
