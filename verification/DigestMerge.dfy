/** How the list of a quarantine digest is merged from the newest held and the newest tagged
    messages. */
module DigestMerge {
  import opened Counting

  const ITEM_LIMIT: nat := 50

  /** `row` tells messages of one source with the same time apart. */
  datatype Item = Item(received: int, tagged: bool, row: nat)

  function Min(a: nat, b: nat): nat {
    if a <= b then a else b
  }

  predicate NewestFirst(items: seq<Item>) {
    forall i, j :: 0 <= i < j < |items| ==> items[i].received >= items[j].received
  }

  /** A copy of `x` is in the source but not in the list. */
  predicate Omitted(source: seq<Item>, list: seq<Item>, x: Item) {
    multiset(list)[x] < multiset(source)[x]
  }

  /** `list` is a choice of the `k` newest of `source`, newest first.  Ties may be broken in
      any way, as the database and the sort may break them. */
  ghost predicate NewestOf(source: seq<Item>, k: nat, list: seq<Item>) {
    && NewestFirst(list)
    && multiset(list) <= multiset(source)
    && |list| == Min(k, |source|)
    && forall x, y :: Omitted(source, list, x) && y in list ==> x.received <= y.received
  }

  // ---------- counting ----------

  function NoOlderThan(t: int): Item -> bool {
    (x: Item) => x.received >= t
  }

  lemma {:induction false} CountSameMultiset(s: seq<Item>, t: seq<Item>, p: Item -> bool)
    requires multiset(s) == multiset(t)
    ensures Count(s, p) == Count(t, p)
    decreases |s|
  {
    hide Count;
    if s == [] {
      CountZero(s, p);
      CountZero(t, p);
      assert |t| == |multiset(t)| == |multiset(s)| == 0;
    } else {
      assert s[0] in multiset(t);
      var a, b := Around(t, s[0]);
      RemoveFirst(s, p);
      RemoveBetween(a, s[0], b, p);
      CountSameMultiset(s[1..], a + b, p);
    }
  }

  lemma RemoveFirst(s: seq<Item>, p: Item -> bool)
    requires s != []
    ensures multiset(s[1..]) == multiset(s) - multiset{s[0]}
    ensures Count(s, p) == Count(s[1..], p) + Indicator(p(s[0]))
  {
    assert s == [s[0]] + s[1..];
  }

  lemma {:induction false} Around(t: seq<Item>, x: Item) returns (a: seq<Item>, b: seq<Item>)
    requires x in t
    ensures t == a + ([x] + b)
  {
    if t[0] == x {
      a, b := [], t[1..];
    } else {
      a, b := Around(t[1..], x);
      a := [t[0]] + a;
    }
  }

  lemma RemoveBetween(a: seq<Item>, x: Item, b: seq<Item>, p: Item -> bool)
    ensures multiset(a + b) == multiset(a + ([x] + b)) - multiset{x}
    ensures Count(a + ([x] + b), p) == Count(a + b, p) + Indicator(p(x))
  {
    CountConcat(a, [x] + b, p);
    CountConcat([x], b, p);
    CountConcat(a, b, p);
    CountOne(x, p);
  }

  /** In a list that is newest first, whatever is newer than element `i` stands before it. */
  lemma CountBefore(m: seq<Item>, i: nat, t: int)
    requires NewestFirst(m) && i < |m| && m[i].received < t
    ensures Count(m, NoOlderThan(t)) <= i
  {
    assert m == m[..i] + m[i..];
    CountConcat(m[..i], m[i..], NoOlderThan(t));
    CountZero(m[i..], NoOlderThan(t));
    CountAll(m[..i], NoOlderThan(t));
  }

  lemma OmissionMeansFull(source: seq<Item>, k: nat, list: seq<Item>, x: Item)
    requires NewestOf(source, k, list) && Omitted(source, list, x)
    ensures |list| == k
  {
    var omitted := multiset(source) - multiset(list);
    assert x in omitted;
    assert |omitted| == |source| - |list|;
  }

  /** A message that its own source's choice left out is no newer than anything in the merge. */
  lemma LeftOutOfSource(source: seq<Item>, k: nat, list: seq<Item>, others: seq<Item>, m: seq<Item>, x: Item, i: nat)
    requires NewestOf(source, k, list) && Omitted(source, list, x)
    requires NewestFirst(m) && multiset(m) == multiset(list + others)
    requires i < |m| && i < k
    ensures x.received <= m[i].received
  {
    OmissionMeansFull(source, k, list, x);
    if m[i].received < x.received {
      var p := NoOlderThan(x.received);
      CountBefore(m, i, x.received);
      CountSameMultiset(m, list + others, p);
      CountConcat(list, others, p);
      forall j | 0 <= j < |list| ensures p(list[j]) {
        assert list[j] in list;
      }
      CountAll(list, p);
    }
  }

  /** A message that the final cut left out is no newer than anything before the cut. */
  lemma LeftOutOfMerge(held: seq<Item>, tagged: seq<Item>, k: nat, a: seq<Item>, b: seq<Item>, m: seq<Item>,
                       n: nat, x: Item, i: nat)
    requires NewestOf(held, k, a) && NewestOf(tagged, k, b)
    requires NewestFirst(m) && multiset(m) == multiset(a + b)
    requires i < n <= |m| && n <= k
    requires Omitted(held + tagged, m[..n], x)
    ensures x.received <= m[i].received
  {
    hide NewestOf;
    Multiplicity(held, tagged, x);
    Multiplicity(a, b, x);
    Multiplicity(b, a, x);
    Multiplicity(m[..n], m[n..], x);
    assert m == m[..n] + m[n..];
    if Omitted(held, a, x) {
      LeftOutOfSource(held, k, a, b, m, x, i);
    } else if Omitted(tagged, b, x) {
      assert multiset(b + a) == multiset(a + b);
      LeftOutOfSource(tagged, k, b, a, m, x, i);
    } else {
      assert x in m[n..];
    }
  }

  lemma Multiplicity(s: seq<Item>, t: seq<Item>, x: Item)
    ensures multiset(s + t)[x] == multiset(s)[x] + multiset(t)[x]
  {
  }

  lemma MergedLength(held: seq<Item>, tagged: seq<Item>, k: nat, a: seq<Item>, b: seq<Item>, m: seq<Item>)
    requires |a| == Min(k, |held|) && |b| == Min(k, |tagged|)
    requires multiset(m) == multiset(a + b)
    ensures |m| == |a| + |b|
    ensures Min(k, |m|) == Min(k, |held| + |tagged|)
  {
    assert |m| == |multiset(m)|;
    assert |multiset(a + b)| == |a + b|;
  }

  lemma LeftOutOfCut(held: seq<Item>, tagged: seq<Item>, k: nat, a: seq<Item>, b: seq<Item>, m: seq<Item>,
                     n: nat, x: Item, y: Item)
    requires NewestOf(held, k, a) && NewestOf(tagged, k, b)
    requires NewestFirst(m) && multiset(m) == multiset(a + b)
    requires n <= |m| && n <= k
    requires Omitted(held + tagged, m[..n], x) && y in m[..n]
    ensures x.received <= y.received
  {
    hide NewestOf, Omitted;
    var i :| 0 <= i < n && m[..n][i] == y;
    LeftOutOfMerge(held, tagged, k, a, b, m, n, x, i);
  }

  lemma CutNewestFirst(m: seq<Item>, n: nat)
    requires NewestFirst(m) && n <= |m|
    ensures NewestFirst(m[..n])
  {
  }

  /** Sorting the two newest-50 lists together and cutting at 50 gives the newest 50 of all. */
  lemma MergeIsNewestOfUnion(held: seq<Item>, tagged: seq<Item>, k: nat, a: seq<Item>, b: seq<Item>, m: seq<Item>)
    requires NewestOf(held, k, a) && NewestOf(tagged, k, b)
    requires NewestFirst(m) && multiset(m) == multiset(a + b)
    ensures NewestOf(held + tagged, k, m[..Min(k, |m|)])
  {
    MergedLength(held, tagged, k, a, b, m);
    var n := Min(k, |m|);
    var out := m[..n];
    PrefixContained(m, n, a + b);
    SubBags(a, held, b, tagged);
    CutNewestFirst(m, n);
    hide NewestFirst, Omitted;
    forall x, y | Omitted(held + tagged, out, x) && y in out ensures x.received <= y.received {
      LeftOutOfCut(held, tagged, k, a, b, m, n, x, y);
    }
  }

  lemma PrefixContained(m: seq<Item>, n: nat, s: seq<Item>)
    requires n <= |m| && multiset(m) == multiset(s)
    ensures multiset(m[..n]) <= multiset(s)
  {
    assert m == m[..n] + m[n..];
  }

  lemma SubBags(a: seq<Item>, held: seq<Item>, b: seq<Item>, tagged: seq<Item>)
    requires multiset(a) <= multiset(held) && multiset(b) <= multiset(tagged)
    ensures multiset(a + b) <= multiset(held + tagged)
  {
  }

  // ---------- the merge as it runs ----------

  function InsertItem(x: Item, sorted: seq<Item>): seq<Item> {
    if sorted == [] then [x]
    else if x.received > sorted[0].received then [x] + sorted
    else [sorted[0]] + InsertItem(x, sorted[1..])
  }

  lemma {:induction false} InsertItemElements(x: Item, sorted: seq<Item>)
    ensures forall y :: y in InsertItem(x, sorted) ==> y == x || y in sorted
  {
    if sorted != [] {
      InsertItemElements(x, sorted[1..]);
    }
  }

  lemma {:induction false} InsertItemSorts(x: Item, sorted: seq<Item>)
    requires NewestFirst(sorted)
    ensures NewestFirst(InsertItem(x, sorted))
  {
    if sorted != [] && x.received <= sorted[0].received {
      var rest := InsertItem(x, sorted[1..]);
      InsertItemSorts(x, sorted[1..]);
      InsertItemElements(x, sorted[1..]);
      forall i | 0 <= i < |rest| ensures sorted[0].received >= rest[i].received {
        assert rest[i] in rest;
      }
    }
  }

  lemma {:induction false} InsertItemKeeps(x: Item, sorted: seq<Item>)
    ensures multiset(InsertItem(x, sorted)) == multiset(sorted) + multiset{x}
  {
    if sorted != [] && x.received <= sorted[0].received {
      InsertItemKeeps(x, sorted[1..]);
      assert sorted == [sorted[0]] + sorted[1..];
    }
  }

  function SortNewestFirst(items: seq<Item>): seq<Item> {
    if items == [] then [] else InsertItem(items[0], SortNewestFirst(items[1..]))
  }

  lemma {:induction false} SortSorts(items: seq<Item>)
    ensures NewestFirst(SortNewestFirst(items))
    ensures multiset(SortNewestFirst(items)) == multiset(items)
  {
    if items != [] {
      SortSorts(items[1..]);
      InsertItemSorts(items[0], SortNewestFirst(items[1..]));
      InsertItemKeeps(items[0], SortNewestFirst(items[1..]));
      assert items == [items[0]] + items[1..];
    }
  }

  /** `ORDER BY received_at DESC LIMIT k`. */
  function QueryNewest(source: seq<Item>, k: nat): seq<Item> {
    var sorted := SortNewestFirst(source);
    sorted[..Min(k, |sorted|)]
  }

  lemma QueryIsNewest(source: seq<Item>, k: nat)
    ensures NewestOf(source, k, QueryNewest(source, k))
  {
    var sorted := SortNewestFirst(source);
    var r := QueryNewest(source, k);
    SortSorts(source);
    hide SortNewestFirst;
    assert |sorted| == |multiset(sorted)| == |multiset(source)| == |source|;
    var rest := sorted[|r|..];
    assert sorted == r + rest;
    forall x, y | Omitted(source, r, x) && y in r ensures x.received <= y.received {
      Multiplicity(r, rest, x);
      assert x in rest;
    }
  }

  /** The list and the total of one digest. */
  method DigestItems(held: seq<Item>, tagged: seq<Item>) returns (items: seq<Item>, total: nat)
    ensures NewestOf(held + tagged, ITEM_LIMIT, items)
    ensures total == |held| + |tagged|
  {
    hide NewestOf, NewestFirst, QueryNewest, SortNewestFirst;
    total := |held|;
    var a := QueryNewest(held, ITEM_LIMIT);
    QueryIsNewest(held, ITEM_LIMIT);
    items := a;
    total := total + |tagged|;
    var b := QueryNewest(tagged, ITEM_LIMIT);
    QueryIsNewest(tagged, ITEM_LIMIT);
    items := items + b;
    SortSorts(items);
    items := SortNewestFirst(items);
    MergeIsNewestOfUnion(held, tagged, ITEM_LIMIT, a, b, items);
    if |items| > ITEM_LIMIT {
      items := items[..ITEM_LIMIT];
    } else {
      assert items[..|items|] == items;
    }
  }
}
