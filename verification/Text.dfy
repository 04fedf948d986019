/** The few string operations of the Go standard library that the parsers rest on. */
module Text {
  /** White space as Unicode defines it. */
  predicate Space(c: char) {
    || '\t' <= c <= '\r' || c == ' ' || c == '\U{0085}' || c == '\U{00A0}' || c == '\U{1680}'
    || '\U{2000}' <= c <= '\U{200A}' || c == '\U{2028}' || c == '\U{2029}' || c == '\U{202F}'
    || c == '\U{205F}' || c == '\U{3000}'
  }

  function TrimLeft(s: string, cut: char -> bool): string {
    if s != [] && cut(s[0]) then TrimLeft(s[1..], cut) else s
  }

  function TrimRight(s: string, cut: char -> bool): string {
    if s != [] && cut(s[|s| - 1]) then TrimRight(s[..|s| - 1], cut) else s
  }

  function Trim(s: string, cut: char -> bool): string {
    TrimRight(TrimLeft(s, cut), cut)
  }

  function TrimSpace(s: string): string {
    Trim(s, Space)
  }

  /** Index of the first `c`, or -1. */
  function Index(s: string, c: char): (at: int)
    ensures -1 <= at < |s|
  {
    if s == [] then -1
    else if s[0] == c then 0
    else
      var rest := Index(s[1..], c);
      if rest < 0 then -1 else rest + 1
  }

  lemma {:induction false} IndexIsFirst(s: string, c: char)
    ensures var at := Index(s, c);
            && (at >= 0 ==> s[at] == c)
            && forall i :: 0 <= i < (if at >= 0 then at else |s|) ==> s[i] != c
  {
    if s != [] && s[0] != c {
      IndexIsFirst(s[1..], c);
      assert forall i :: 1 <= i < |s| ==> s[i] == s[1..][i - 1];
    }
  }

  datatype Cut = NoCut | Cut(left: string, right: string)

  /** The text before and after the first `c`. */
  function FirstCut(s: string, c: char): Cut {
    if s == [] then NoCut
    else if s[0] == c then Cut([], s[1..])
    else
      match FirstCut(s[1..], c)
      case NoCut => NoCut
      case Cut(left, right) => Cut([s[0]] + left, right)
  }

  lemma {:induction false} FirstCutIs(s: string, c: char)
    ensures FirstCut(s, c) == NoCut ==> c !in s
    ensures var k := FirstCut(s, c);
            k.Cut? ==> s == k.left + ([c] + k.right) && c !in k.left
  {
    if s != [] && s[0] != c {
      FirstCutIs(s[1..], c);
      assert s == [s[0]] + s[1..];
    }
  }

  lemma {:induction false} FirstCutOf(left: string, c: char, right: string)
    requires c !in left
    ensures FirstCut(left + ([c] + right), c) == Cut(left, right)
  {
    var s := left + ([c] + right);
    if left == [] {
      assert s == [c] + right;
    } else {
      FirstCutOf(left[1..], c, right);
      assert s[1..] == left[1..] + ([c] + right);
    }
  }

  lemma {:induction false} NoFirstCut(s: string, c: char)
    requires c !in s
    ensures FirstCut(s, c) == NoCut
  {
    if s != [] {
      NoFirstCut(s[1..], c);
    }
  }

  lemma {:induction false} FirstCutAtIndex(s: string, c: char)
    ensures var at := Index(s, c);
            FirstCut(s, c) == if at < 0 then NoCut else Cut(s[..at], s[at + 1..])
  {
    if s != [] && s[0] != c {
      FirstCutAtIndex(s[1..], c);
    }
  }

  /** Index of the last `c`, or -1. */
  function LastIndex(s: string, c: char): (at: int)
    ensures -1 <= at < |s|
    ensures at >= 0 ==> s[at] == c
    ensures forall i :: at < i < |s| ==> s[i] != c
  {
    if s == [] then -1
    else if s[|s| - 1] == c then |s| - 1
    else LastIndex(s[..|s| - 1], c)
  }

  /** Nothing to trim at either end. */
  predicate Trimmed(s: string, cut: char -> bool) {
    s != [] ==> !cut(s[0]) && !cut(s[|s| - 1])
  }

  lemma {:induction false} TrimLeftEnds(s: string, cut: char -> bool)
    ensures var r := TrimLeft(s, cut);
            |r| <= |s| && r == s[|s| - |r|..] && (r != [] ==> !cut(r[0]))
  {
    if s != [] && cut(s[0]) {
      TrimLeftEnds(s[1..], cut);
    }
  }

  lemma {:induction false} TrimRightEnds(s: string, cut: char -> bool)
    ensures var r := TrimRight(s, cut);
            |r| <= |s| && r == s[..|r|] && (r != [] ==> !cut(r[|r| - 1]))
  {
    if s != [] && cut(s[|s| - 1]) {
      TrimRightEnds(s[..|s| - 1], cut);
    }
  }

  lemma TrimTrims(s: string, cut: char -> bool)
    ensures Trimmed(Trim(s, cut), cut)
  {
    TrimLeftEnds(s, cut);
    TrimRightEnds(TrimLeft(s, cut), cut);
  }

  // ---------- lower case (ASCII) ----------

  function LowerChar(c: char): char {
    if 'A' <= c <= 'Z' then c - 'A' + 'a' else c
  }

  function Lower(s: string): (r: string)
    ensures |r| == |s| && forall i :: 0 <= i < |s| ==> r[i] == LowerChar(s[i])
  {
    seq(|s|, i requires 0 <= i < |s| => LowerChar(s[i]))
  }

  // ---------- tokens ----------

  /** The maximal runs of `keep` characters in `s`; `current` is the run being read. */
  function Runs(s: string, current: string, keep: char -> bool): seq<string>
    decreases |s|
  {
    if s == [] then (if current == "" then [] else [current])
    else if keep(s[0]) then Runs(s[1..], current + [s[0]], keep)
    else (if current == "" then [] else [current]) + Runs(s[1..], "", keep)
  }

  /** The fields of a text, as white space separates them. */
  function Fields(s: string): seq<string> {
    Runs(s, "", c => !Space(c))
  }

  function Join(words: seq<string>): string {
    if words == [] then ""
    else if |words| == 1 then words[0]
    else words[0] + " " + Join(words[1..])
  }

  predicate Word(w: string, keep: char -> bool) {
    w != "" && forall i :: 0 <= i < |w| ==> keep(w[i])
  }

  lemma {:induction false} RunsOfWord(w: string, rest: string, current: string, keep: char -> bool)
    requires forall i :: 0 <= i < |w| ==> keep(w[i])
    ensures Runs(w + rest, current, keep) == Runs(rest, current + w, keep)
  {
    if w == "" {
      assert w + rest == rest && current + w == current;
    } else {
      assert (w + rest)[1..] == w[1..] + rest;
      RunsOfWord(w[1..], rest, current + [w[0]], keep);
      assert current + [w[0]] + w[1..] == current + w;
    }
  }

  lemma {:induction false} RunsOfJoin(words: seq<string>, keep: char -> bool)
    requires !keep(' ') && forall w :: w in words ==> Word(w, keep)
    ensures Runs(Join(words), "", keep) == words
  {
    if words != [] {
      var w := words[0];
      assert w in words;
      if |words| == 1 {
        RunsOfWord(w, "", "", keep);
        assert w + "" == w && "" + w == w;
      } else {
        var rest := " " + Join(words[1..]);
        assert Join(words) == w + rest;
        RunsOfWord(w, rest, "", keep);
        assert "" + w == w;
        assert rest[1..] == Join(words[1..]);
        RunsOfJoin(words[1..], keep);
      }
    }
  }

  lemma {:induction false} RunsAreWords(s: string, current: string, keep: char -> bool)
    requires current == "" || Word(current, keep)
    ensures forall w :: w in Runs(s, current, keep) ==> Word(w, keep)
    decreases |s|
  {
    if s != [] {
      if keep(s[0]) {
        RunsAreWords(s[1..], current + [s[0]], keep);
      } else {
        RunsAreWords(s[1..], "", keep);
      }
    }
  }

  // ---------- lists of values ----------

  function Normal(s: string): string {
    Lower(TrimSpace(s))
  }

  /** Every non-empty value once, in lower case, in the order of first appearance. */
  function UniqueLower(values: seq<string>): seq<string> {
    if values == [] then []
    else
      var before := UniqueLower(values[..|values| - 1]);
      var v := Normal(values[|values| - 1]);
      if v == "" || v in before then before else before + [v]
  }

  predicate Distinct(values: seq<string>) {
    forall i, j :: 0 <= i < j < |values| ==> values[i] != values[j]
  }

  lemma {:induction false} UniqueLowerMembers(values: seq<string>)
    ensures Distinct(UniqueLower(values))
    ensures forall v :: v in UniqueLower(values) <==> v != "" && exists w :: w in values && Normal(w) == v
    decreases |values|
  {
    hide Normal;
    if values != [] {
      UniqueLowerMembers(values[..|values| - 1]);
      assert values == values[..|values| - 1] + [values[|values| - 1]];
    }
  }

  /** Distinct values in normal form are left as they are. */
  lemma {:induction false} UniqueLowerFixes(values: seq<string>)
    requires Distinct(values) && forall v :: v in values ==> v != "" && Normal(v) == v
    ensures UniqueLower(values) == values
    decreases |values|
  {
    hide Normal;
    if values != [] {
      var before := values[..|values| - 1];
      forall v | v in before ensures v in values {
        var i :| 0 <= i < |before| && before[i] == v;
        assert values[i] == v;
      }
      UniqueLowerFixes(before);
    }
  }

  method UniqueLowerStrings(values: seq<string>) returns (out: seq<string>)
    ensures out == UniqueLower(values)
  {
    hide Normal;
    var seen: set<string> := {};
    out := [];
    for k := 0 to |values|
      invariant out == UniqueLower(values[..k])
      invariant forall v :: v in seen <==> v in out
    {
      assert values[..k + 1][..k] == values[..k];
      var value := Normal(values[k]);
      if value == "" || value in seen {
        continue;
      }
      seen := seen + {value};
      out := out + [value];
    }
    assert values[..|values|] == values;
  }
}
