/** How many elements of a sequence satisfy a predicate. */
module Counting {
  function Count<T>(s: seq<T>, p: T -> bool): nat {
    if s == [] then 0 else (if p(s[0]) then 1 else 0) + Count(s[1..], p)
  }

  function Indicator(b: bool): nat {
    if b then 1 else 0
  }

  lemma {:induction false} CountZero<T>(s: seq<T>, p: T -> bool)
    ensures Count(s, p) == 0 <==> forall j :: 0 <= j < |s| ==> !p(s[j])
  {
    if s != [] {
      CountZero(s[1..], p);
      if Count(s, p) == 0 {
        forall j | 0 <= j < |s| ensures !p(s[j]) {
          if j > 0 { assert s[1..][j - 1] == s[j]; }
        }
      } else if !p(s[0]) {
        var j :| 0 <= j < |s[1..]| && p(s[1..][j]);
        assert p(s[j + 1]);
      }
    }
  }

  lemma {:induction false} CountConcat<T>(a: seq<T>, b: seq<T>, p: T -> bool)
    ensures Count(a + b, p) == Count(a, p) + Count(b, p)
  {
    if a == [] {
      assert a + b == b;
    } else {
      assert (a + b)[1..] == a[1..] + b;
      CountConcat(a[1..], b, p);
    }
  }

  lemma CountOne<T>(x: T, p: T -> bool)
    ensures Count([x], p) == Indicator(p(x))
  {
    assert [x][1..] == [];
  }

  lemma CountAppend<T>(s: seq<T>, x: T, p: T -> bool)
    ensures Count(s + [x], p) == Count(s, p) + Indicator(p(x))
  {
    CountConcat(s, [x], p);
    CountOne(x, p);
  }

  lemma CountUpdate<T>(s: seq<T>, i: nat, x: T, p: T -> bool)
    requires i < |s|
    ensures Count(s[i := x], p) + Indicator(p(s[i])) == Count(s, p) + Indicator(p(x))
  {
    assert s == s[..i] + ([s[i]] + s[i + 1..]);
    assert s[i := x] == s[..i] + ([x] + s[i + 1..]);
    CountConcat(s[..i], [s[i]] + s[i + 1..], p);
    CountConcat(s[..i], [x] + s[i + 1..], p);
    CountConcat([s[i]], s[i + 1..], p);
    CountConcat([x], s[i + 1..], p);
    CountOne(s[i], p);
    CountOne(x, p);
  }

  lemma {:induction false} CountAll<T>(s: seq<T>, p: T -> bool)
    ensures Count(s, p) <= |s|
    ensures Count(s, p) == |s| <==> forall j :: 0 <= j < |s| ==> p(s[j])
  {
    if s != [] {
      CountAll(s[1..], p);
      if Count(s, p) == |s| {
        forall j | 0 <= j < |s| ensures p(s[j]) {
          if j > 0 { assert s[1..][j - 1] == s[j]; }
        }
      } else if p(s[0]) {
        var j :| 0 <= j < |s[1..]| && !p(s[1..][j]);
        assert !p(s[j + 1]);
      }
    }
  }

  /** Exactly one element fails `p`. */
  lemma CountAllButOne<T>(s: seq<T>, w: nat, p: T -> bool)
    requires w < |s| && !p(s[w])
    requires forall j :: 0 <= j < |s| && j != w ==> p(s[j])
    ensures Count(s, p) == |s| - 1
  {
    assert s == s[..w] + ([s[w]] + s[w + 1..]);
    CountConcat(s[..w], [s[w]] + s[w + 1..], p);
    CountConcat([s[w]], s[w + 1..], p);
    CountOne(s[w], p);
    CountAll(s[..w], p);
    CountAll(s[w + 1..], p);
  }
}
