/** Reading a List-Unsubscribe header (RFC 2369, sections 2 and 3.2). */
module Unsubscribe {
  import opened Text
  import opened Wrappers

  const MAX_OPTIONS: nat := 3

  // ---------- what a header is ----------

  /** A target in angle brackets and the text before its opening bracket. */
  datatype Item = Item(before: string, inside: string)

  predicate Bracketable(items: seq<Item>) {
    forall i :: 0 <= i < |items| ==> '<' !in items[i].before && '>' !in items[i].inside
  }

  /** No opening bracket is followed by a closing one. */
  predicate Unpaired(tail: string) {
    forall i, j :: 0 <= i < j < |tail| ==> !(tail[i] == '<' && tail[j] == '>')
  }

  datatype Piece = NoPiece | Piece(item: Item, rest: string)

  function Framed(item: Item, rest: string): string {
    item.before + (['<'] + (item.inside + (['>'] + rest)))
  }

  /** The first opening bracket and the first closing one after it. */
  function NextPiece(s: string): Piece {
    match FirstCut(s, '<')
    case NoCut => NoPiece
    case Cut(before, after) =>
      match FirstCut(after, '>')
      case NoCut => NoPiece
      case Cut(inside, rest) => Piece(Item(before, inside), rest)
  }

  lemma NextPieceIs(s: string)
    ensures NextPiece(s).NoPiece? ==> Unpaired(s)
    ensures NextPiece(s).Piece? ==>
              var p := NextPiece(s);
              s == Framed(p.item, p.rest) && '<' !in p.item.before && '>' !in p.item.inside && |p.rest| < |s|
  {
    hide FirstCut;
    FirstCutIs(s, '<');
    if FirstCut(s, '<').Cut? {
      FirstCutIs(FirstCut(s, '<').right, '>');
    }
  }

  lemma FramedPiece(item: Item, rest: string)
    requires '<' !in item.before && '>' !in item.inside
    ensures NextPiece(Framed(item, rest)) == Piece(item, rest)
  {
    FirstCutOf(item.before, '<', item.inside + (['>'] + rest));
    FirstCutOf(item.inside, '>', rest);
  }

  lemma UnpairedHasNone(s: string)
    requires Unpaired(s)
    ensures NextPiece(s) == NoPiece
  {
    hide FirstCut;
    FirstCutIs(s, '<');
    if FirstCut(s, '<').Cut? {
      var k := FirstCut(s, '<');
      forall j | 0 <= j < |k.right| ensures k.right[j] != '>' {
        assert s[|k.left|] == '<' && s[|k.left| + 1 + j] == k.right[j];
      }
      NoFirstCut(k.right, '>');
    }
  }

  function Render(items: seq<Item>, tail: string): string {
    if items == [] then tail else Framed(items[0], Render(items[1..], tail))
  }

  /** The one reading of a header as bracketed items and a rest. */
  function Read(s: string): (seq<Item>, string)
    decreases |s|
  {
    NextPieceIs(s);
    var p := NextPiece(s);
    if p.NoPiece? then ([], s)
    else
      var rest := Read(p.rest);
      ([p.item] + rest.0, rest.1)
  }

  function Values(items: seq<Item>): seq<string> {
    if items == [] then []
    else
      var value := TrimSpace(items[0].inside);
      (if value != "" then [value] else []) + Values(items[1..])
  }

  /** Reading takes a header apart without losing anything. */
  lemma {:induction false} ReadRenders(s: string)
    ensures Bracketable(Read(s).0) && Unpaired(Read(s).1)
    ensures Render(Read(s).0, Read(s).1) == s
    decreases |s|
  {
    hide NextPiece, Unpaired, Framed;
    NextPieceIs(s);
    var p := NextPiece(s);
    if p.Piece? {
      ReadRenders(p.rest);
      assert Read(s).0[1..] == Read(p.rest).0;
    }
  }

  /** And there is no other reading: whatever was rendered is read back. */
  lemma {:induction false} RenderReads(items: seq<Item>, tail: string)
    requires Bracketable(items) && Unpaired(tail)
    ensures Read(Render(items, tail)) == (items, tail)
  {
    hide NextPiece, Unpaired, Framed;
    if items == [] {
      UnpairedHasNone(tail);
    } else {
      RenderReads(items[1..], tail);
      FramedPiece(items[0], Render(items[1..], tail));
      assert items == [items[0]] + items[1..];
    }
  }

  // ---------- white space around the header ----------

  function Bracketed(s: string): seq<string> {
    Values(Read(s).0)
  }

  lemma DropFirst(s: string)
    requires s != [] && s[0] != '<'
    ensures Bracketed(s[1..]) == Bracketed(s)
  {
    hide NextPiece, TrimSpace;
    NextPieceIs(s);
    var p := NextPiece(s);
    if p.NoPiece? {
      UnpairedHasNone(s[1..]);
    } else {
      var shorter := Item(p.item.before[1..], p.item.inside);
      assert s[1..] == Framed(shorter, p.rest);
      FramedPiece(shorter, p.rest);
      BracketedStep(s);
      BracketedStep(s[1..]);
    }
  }

  lemma BracketedStep(s: string)
    ensures NextPiece(s).NoPiece? ==> Bracketed(s) == []
    ensures NextPiece(s).Piece? ==>
              var value := TrimSpace(NextPiece(s).item.inside);
              Bracketed(s) == (if value != "" then [value] else []) + Bracketed(NextPiece(s).rest)
  {
    hide NextPiece, TrimSpace;
    if NextPiece(s).Piece? {
      assert Read(s).0[1..] == Read(NextPiece(s).rest).0;
    }
  }

  lemma {:induction false} DropLast(s: string)
    requires s != [] && s[|s| - 1] != '>'
    ensures Bracketed(s[..|s| - 1]) == Bracketed(s)
    decreases |s|
  {
    hide NextPiece, TrimSpace, Bracketed;
    var shorter := s[..|s| - 1];
    NextPieceIs(s);
    BracketedStep(s);
    BracketedStep(shorter);
    var p := NextPiece(s);
    if p.NoPiece? {
      UnpairedHasNone(shorter);
    } else {
      assert p.rest != [] && p.rest[|p.rest| - 1] == s[|s| - 1];
      DropLast(p.rest);
      assert shorter == Framed(p.item, p.rest[..|p.rest| - 1]);
      FramedPiece(p.item, p.rest[..|p.rest| - 1]);
    }
  }

  lemma {:induction false} BracketedTrimLeft(s: string)
    ensures Bracketed(TrimLeft(s, Space)) == Bracketed(s)
  {
    if s != [] && Space(s[0]) {
      DropFirst(s);
      BracketedTrimLeft(s[1..]);
    }
  }

  lemma {:induction false} BracketedTrimRight(s: string)
    ensures Bracketed(TrimRight(s, Space)) == Bracketed(s)
    decreases |s|
  {
    if s != [] && Space(s[|s| - 1]) {
      DropLast(s);
      BracketedTrimRight(s[..|s| - 1]);
    }
  }

  // ---------- headers without brackets ----------

  function Split(s: string, c: char): seq<string>
    decreases |s|
  {
    FirstCutIs(s, c);
    match FirstCut(s, c)
    case NoCut => [s]
    case Cut(part, rest) => [part] + Split(rest, c)
  }

  predicate Angle(c: char) {
    c == '<' || c == '>'
  }

  function BareValue(part: string): string {
    TrimSpace(Trim(part, Angle))
  }

  function BareValues(parts: seq<string>): seq<string> {
    if parts == [] then []
    else
      var rest := BareValues(parts[..|parts| - 1]);
      var value := BareValue(parts[|parts| - 1]);
      rest + if value != "" then [value] else []
  }

  /** The targets of a header: the bracketed ones, or the comma-separated parts when no bracket
      holds anything. */
  function Targets(header: string): seq<string> {
    if Bracketed(header) != [] then Bracketed(header) else BareValues(Split(TrimSpace(header), ','))
  }

  /** The two searches of one round of the scan. */
  method FindPiece(remaining: string) returns (piece: Piece)
    ensures piece == NextPiece(remaining)
  {
    hide Index, FirstCut;
    FirstCutAtIndex(remaining, '<');
    var start := Index(remaining, '<');
    if start < 0 {
      return NoPiece;
    }
    var after := remaining[start + 1..];
    FirstCutAtIndex(after, '>');
    var end := Index(after, '>');
    if end < 0 {
      return NoPiece;
    }
    piece := Piece(Item(remaining[..start], after[..end]), after[end + 1..]);
  }

  method ListUnsubscribeCandidates(header: string) returns (out: seq<string>)
    ensures out == Targets(header)
  {
    hide Bracketed, Split, BareValue, TrimSpace, NextPiece, Framed;
    BracketedTrim(header);
    var trimmed := TrimSpace(header);
    if trimmed == "" {
      EmptyHeader();
      return [];
    }
    out := [];
    var remaining := trimmed;
    while true
      invariant out + Bracketed(remaining) == Bracketed(trimmed)
      decreases |remaining|
    {
      BracketedStep(remaining);
      NextPieceIs(remaining);
      var piece := FindPiece(remaining);
      if piece.NoPiece? {
        break;
      }
      var value := TrimSpace(piece.item.inside);
      if value != "" {
        out := out + [value];
      }
      remaining := piece.rest;
    }
    if |out| > 0 {
      return out;
    }
    var parts := Split(trimmed, ',');
    for k := 0 to |parts|
      invariant out == BareValues(parts[..k])
    {
      assert parts[..k + 1][..k] == parts[..k];
      var value := BareValue(parts[k]);
      if value != "" {
        out := out + [value];
      }
    }
    assert parts[..|parts|] == parts;
  }

  lemma BracketedTrim(s: string)
    ensures Bracketed(TrimSpace(s)) == Bracketed(s)
  {
    BracketedTrimLeft(s);
    BracketedTrimRight(TrimLeft(s, Space));
  }

  lemma EmptyHeader()
    ensures Bracketed("") == [] && BareValues(Split("", ',')) == []
  {
    assert BareValue("") == "";
    assert [""][..0] == [];
  }

  // ---------- parse undoes print ----------

  function Items(targets: seq<string>, lead: string): seq<Item> {
    if targets == [] then [] else [Item(lead, targets[0])] + Items(targets[1..], ", ")
  }

  /** `<t1>, <t2>, ...` */
  function Print(targets: seq<string>): string {
    Render(Items(targets, ""), "")
  }

  predicate Printable(t: string) {
    t != "" && Trimmed(t, Space) && '>' !in t
  }

  lemma TrimmedIsFixed(s: string, cut: char -> bool)
    requires Trimmed(s, cut)
    ensures Trim(s, cut) == s
  {
  }

  lemma {:induction false} ItemsRead(targets: seq<string>, lead: string)
    requires '<' !in lead && forall t :: t in targets ==> Printable(t)
    ensures Bracketable(Items(targets, lead)) && Values(Items(targets, lead)) == targets
  {
    if targets != [] {
      assert targets[0] in targets;
      TrimmedIsFixed(targets[0], Space);
      ItemsRead(targets[1..], ", ");
      assert Items(targets, lead)[1..] == Items(targets[1..], ", ");
    }
  }

  lemma PrintThenParse(targets: seq<string>)
    requires targets != [] && forall t :: t in targets ==> Printable(t)
    ensures Targets(Print(targets)) == targets
  {
    ItemsRead(targets, "");
    RenderReads(Items(targets, ""), "");
  }

  lemma TrimKeepsOut(s: string, cut: char -> bool, c: char)
    requires c !in s
    ensures c !in Trim(s, cut)
  {
    TrimLeftEnds(s, cut);
    TrimRightEnds(TrimLeft(s, cut), cut);
  }

  lemma {:induction false} ValuesArePrintable(items: seq<Item>)
    requires Bracketable(items)
    ensures forall t :: t in Values(items) ==> Printable(t)
  {
    if items != [] {
      ValuesArePrintable(items[1..]);
      TrimTrims(items[0].inside, Space);
      TrimKeepsOut(items[0].inside, Space, '>');
    }
  }

  /** `lead` stands before the first target: nothing, or the space after a comma. */
  function PrintBare(targets: seq<string>, lead: string): string {
    if targets == [] then ""
    else if |targets| == 1 then lead + targets[0]
    else lead + targets[0] + "," + PrintBare(targets[1..], " ")
  }

  predicate BarePrintable(t: string) {
    t != "" && Trimmed(t, Space) && '<' !in t && '>' !in t && ',' !in t
  }

  lemma BarePart(t: string, lead: string)
    requires BarePrintable(t) && lead in ["", " "]
    ensures BareValue(lead + t) == t
  {
    assert Trimmed(lead + t, Angle);
    TrimmedIsFixed(lead + t, Angle);
    TrimmedIsFixed(t, Space);
    if lead == " " {
      assert (lead + t)[1..] == t;
    } else {
      assert lead + t == t;
    }
  }

  lemma {:induction false} BareParts(targets: seq<string>, lead: string)
    requires targets != [] && lead in ["", " "] && forall t :: t in targets ==> BarePrintable(t)
    ensures var parts := Split(PrintBare(targets, lead), ',');
            |parts| == |targets| && forall i :: 0 <= i < |parts| ==> BareValue(parts[i]) == targets[i]
    ensures '<' !in PrintBare(targets, lead)
  {
    hide BareValue, Split;
    var s, part := PrintBare(targets, lead), lead + targets[0];
    assert targets[0] in targets && ',' !in part;
    BarePart(targets[0], lead);
    if |targets| == 1 {
      SplitNone(part, ',');
    } else {
      var rest := PrintBare(targets[1..], " ");
      BareParts(targets[1..], " ");
      assert s == part + ([','] + rest);
      SplitFirst(part, ',', rest);
    }
  }

  lemma SplitFirst(part: string, c: char, rest: string)
    requires c !in part
    ensures Split(part + ([c] + rest), c) == [part] + Split(rest, c)
  {
    FirstCutOf(part, c, rest);
  }

  lemma SplitNone(s: string, c: char)
    requires c !in s
    ensures Split(s, c) == [s]
  {
    NoFirstCut(s, c);
  }

  lemma {:induction false} BareValuesAre(parts: seq<string>, values: seq<string>)
    requires |parts| == |values| && forall i :: 0 <= i < |parts| ==> BareValue(parts[i]) == values[i] != ""
    ensures BareValues(parts) == values
    decreases |parts|
  {
    hide BareValue;
    if parts != [] {
      BareValuesAre(parts[..|parts| - 1], values[..|values| - 1]);
    }
  }

  lemma {:induction false} PrintBareEnds(targets: seq<string>, lead: string)
    requires targets != [] && forall t :: t in targets ==> BarePrintable(t)
    ensures var s := PrintBare(targets, lead);
            s != "" && !Space(s[|s| - 1]) && (lead == "" ==> !Space(s[0]))
  {
    assert targets[0] in targets;
    if |targets| > 1 {
      PrintBareEnds(targets[1..], " ");
    }
  }

  lemma SpaceTrimmedIsFixed(s: string)
    requires Trimmed(s, Space)
    ensures TrimSpace(s) == s
  {
  }

  lemma NoBracketNoValue(s: string)
    requires '<' !in s
    ensures Bracketed(s) == []
  {
    UnpairedHasNone(s);
  }

  /** A plain comma-separated list without brackets is understood as well. */
  lemma PrintBareThenParse(targets: seq<string>)
    requires targets != [] && forall t :: t in targets ==> BarePrintable(t)
    ensures Targets(PrintBare(targets, "")) == targets
  {
    hide BareValue, BareValues, Split, TrimSpace;
    var s := PrintBare(targets, "");
    BareParts(targets, "");
    PrintBareEnds(targets, "");
    assert targets[0] in targets;
    NoBracketNoValue(s);
    SpaceTrimmedIsFixed(s);
    forall i | 0 <= i < |targets| ensures targets[i] != "" { assert targets[i] in targets; }
    BareValuesAre(Split(s, ','), targets);
  }

  // ---------- printing what was read ----------

  lemma {:induction false} BareValuesArePlain(parts: seq<string>)
    requires forall p :: p in parts ==> ',' !in p
    ensures forall t :: t in BareValues(parts) ==> t != "" && Trimmed(t, Space) && ',' !in t
    decreases |parts|
  {
    if parts != [] {
      var last := parts[|parts| - 1];
      BareValuesArePlain(parts[..|parts| - 1]);
      TrimKeepsOut(last, Angle, ',');
      TrimKeepsOut(Trim(last, Angle), Space, ',');
      TrimTrims(Trim(last, Angle), Space);
    }
  }

  lemma {:induction false} PartsAreWithout(s: string, c: char)
    ensures forall p :: p in Split(s, c) ==> c !in p
    decreases |s|
  {
    FirstCutIs(s, c);
    if FirstCut(s, c).Cut? {
      PartsAreWithout(FirstCut(s, c).right, c);
    }
  }

  lemma {:induction false} BareValuesFirst(first: string, rest: seq<string>)
    ensures BareValues([first] + rest) == (if BareValue(first) != "" then [BareValue(first)] else []) + BareValues(rest)
    ensures |BareValues(rest)| <= |rest|
    decreases |rest|
  {
    hide BareValue;
    if rest == [] {
      assert [first] + rest == [first] && [first][..0] == [];
    } else {
      BareValuesFirst(first, rest[..|rest| - 1]);
      assert ([first] + rest)[..|rest|] == [first] + rest[..|rest| - 1];
    }
  }

  /** What follows the first target in a printed list. */
  function PrintTail(targets: seq<string>): string {
    Render(Items(targets, ", "), "")
  }

  lemma PrintIs(targets: seq<string>)
    requires targets != []
    ensures Print(targets) == ['<'] + (targets[0] + (['>'] + PrintTail(targets[1..])))
  {
    assert Items(targets, "")[1..] == Items(targets[1..], ", ");
  }

  lemma TailStep(targets: seq<string>)
    requires targets != []
    ensures PrintTail(targets) == [','] + (" <" + targets[0] + ">" + PrintTail(targets[1..]))
  {
    assert Items(targets, ", ")[1..] == Items(targets[1..], ", ");
  }

  lemma {:induction false} TailParts(targets: seq<string>, head: string)
    requires ',' !in head && forall t :: t in targets ==> ',' !in t
    ensures var parts := Split(head + PrintTail(targets), ',');
            |parts| == |targets| + 1 && parts[0] == head
    decreases |targets|
  {
    hide Split;
    if targets == [] {
      assert head + PrintTail(targets) == head;
      SplitNone(head, ',');
    } else {
      hide PrintTail;
      var next := " <" + targets[0] + ">";
      assert targets[0] in targets;
      TailStep(targets);
      SplitFirst(head, ',', next + PrintTail(targets[1..]));
      TailParts(targets[1..], next);
    }
  }

  lemma TrimNoLonger(s: string, cut: char -> bool)
    ensures |Trim(s, cut)| <= |TrimLeft(s, cut)| <= |s|
  {
    TrimLeftEnds(s, cut);
    TrimRightEnds(TrimLeft(s, cut), cut);
  }

  lemma TwoTrimmed(a: char, b: char, rest: string)
    requires Angle(a) && Angle(b)
    ensures TrimLeft([a, b] + rest, Angle) == TrimLeft(rest, Angle)
  {
    assert ([a, b] + rest)[1..] == [b] + rest;
    assert ([b] + rest)[1..] == rest;
  }

  lemma LastTrimmed(s: string)
    requires s != "" && Angle(s[|s| - 1])
    ensures |Trim(s, Angle)| < |s|
  {
    TrimLeftEnds(s, Angle);
    TrimRightEnds(TrimLeft(s, Angle), Angle);
  }

  lemma TrimShorter(t: string)
    requires t != "" && t[0] == '>'
    ensures |BareValue("<" + t + ">")| < |t|
  {
    var rest := t[1..] + ">";
    assert "<" + t + ">" == ['<', '>'] + rest;
    TwoTrimmed('<', '>', rest);
    LastTrimmed(rest);
    TrimNoLonger(Trim(rest, Angle), Space);
  }

  /** A printed list whose first bracket pair is empty is read as a bare list, and not as itself. */
  lemma EmptyBracketsChange(targets: seq<string>)
    requires targets != [] && targets[0] != "" && targets[0][0] == '>'
    requires forall t :: t in targets ==> ',' !in t
    ensures BareValues(Split(Print(targets), ',')) != targets
  {
    hide BareValue, BareValues, Split, Print, PrintTail;
    var head := "<" + targets[0] + ">";
    PrintHead(targets);
    assert targets[0] in targets;
    TailParts(targets[1..], head);
    var parts := Split(Print(targets), ',');
    assert parts == [head] + parts[1..];
    BareValuesFirst(head, parts[1..]);
    TrimShorter(targets[0]);
    ShorterIsOther(BareValue(head), BareValues(parts[1..]), targets);
  }

  lemma PrintHead(targets: seq<string>)
    requires targets != []
    ensures Print(targets) == "<" + targets[0] + ">" + PrintTail(targets[1..])
  {
    hide Print, PrintTail;
    PrintIs(targets);
  }

  /** A shorter first value, or one value less, makes another list. */
  lemma ShorterIsOther(first: string, rest: seq<string>, targets: seq<string>)
    requires targets != [] && |first| < |targets[0]| && |rest| < |targets|
    ensures (if first != "" then [first] else []) + rest != targets
  {
    if first != "" {
      assert ([first] + rest)[0] == first;
    } else {
      assert [] + rest == rest;
    }
  }

  lemma PrintIsTrimmed(targets: seq<string>)
    requires targets != []
    ensures TrimSpace(Print(targets)) == Print(targets)
  {
    PrintIs(targets);
    TailEnds(targets[1..]);
    SpaceTrimmedIsFixed(Print(targets));
  }

  lemma {:induction false} TailEnds(targets: seq<string>)
    ensures var tail := PrintTail(targets); tail != "" ==> tail[|tail| - 1] == '>'
  {
    if targets != [] {
      TailEnds(targets[1..]);
      assert Items(targets, ", ")[1..] == Items(targets[1..], ", ");
    }
  }

  lemma BlankPrefix(t: string, k: nat)
    requires t != "" && !Space(t[0]) && k <= |t| && TrimSpace(t[..k]) == ""
    ensures k == 0
  {
    if k > 0 {
      TrimRightKeepsFirst(t[..k]);
    }
  }

  lemma {:induction false} TrimRightKeepsFirst(s: string)
    requires s != "" && !Space(s[0])
    ensures TrimRight(s, Space) != "" && TrimLeft(s, Space) == s
    decreases |s|
  {
    if Space(s[|s| - 1]) {
      TrimRightKeepsFirst(s[..|s| - 1]);
    }
  }

  lemma {:induction false} CutWithin(t: string, c: char, tail: string)
    ensures var k := FirstCut(t + ([c] + tail), c);
            && k.Cut? && |k.left| <= |t| && k.left == t[..|k.left|]
            && (|k.left| < |t| ==> t[|k.left|] == c)
  {
    var s := t + ([c] + tail);
    if t == [] {
      assert s == [c] + tail;
    } else if t[0] != c {
      assert s[1..] == t[1..] + ([c] + tail);
      CutWithin(t[1..], c, tail);
    }
  }

  /** The first bracket pair of a printed list holds the text up to the first closing bracket. */
  lemma FirstPrinted(targets: seq<string>)
    requires targets != [] && targets[0] != "" && !Space(targets[0][0])
    ensures Bracketed(Print(targets)) == [] ==> targets[0][0] == '>'
  {
    hide TrimSpace, Read, Bracketed, Print, PrintTail;
    var tail := PrintTail(targets[1..]);
    var after := targets[0] + (['>'] + tail);
    PrintIs(targets);
    BracketedStep(Print(targets));
    assert ['<'] + after == [] + (['<'] + after);
    FirstCutOf([], '<', after);
    CutWithin(targets[0], '>', tail);
    var left := FirstCut(after, '>').left;
    hide FirstCut;
    if TrimSpace(left) == "" {
      BlankPrefix(targets[0], |left|);
    }
  }

  /** Targets read from any header are trimmed, and have no comma when the header has no brackets. */
  lemma TargetsArePlain(header: string)
    ensures forall t :: t in Targets(header) ==> t != "" && Trimmed(t, Space)
    ensures Bracketed(header) != [] ==> forall t :: t in Targets(header) ==> '>' !in t
    ensures Bracketed(header) == [] ==> forall t :: t in Targets(header) ==> ',' !in t
  {
    ReadRenders(header);
    ValuesArePrintable(Read(header).0);
    PartsAreWithout(TrimSpace(header), ',');
    BareValuesArePlain(Split(TrimSpace(header), ','));
  }

  /** Printing what was read from a header and reading it again gives the same targets exactly when
      none of them contains a closing bracket. */
  lemma ReprintIsStableExactly(header: string)
    ensures Targets(Print(Targets(header))) == Targets(header) <==> forall t :: t in Targets(header) ==> '>' !in t
  {
    hide Targets, BareValues, Split, Bracketed, TrimSpace, Print;
    var targets := Targets(header);
    TargetsArePlain(header);
    if targets == [] {
      NothingToPrint();
    } else if forall t :: t in targets ==> '>' !in t {
      PrintThenParse(targets);
    } else {
      TargetsArePlain(Print(targets));
      assert Bracketed(header) == [];
      if Bracketed(Print(targets)) == [] {
        assert targets[0] in targets;
        FirstPrinted(targets);
        EmptyBracketsChange(targets);
        PrintIsTrimmed(targets);
        BareTargets(Print(targets));
      }
    }
  }

  /** Parsing undoes printing exactly for the lists whose targets are all printable: not empty, trimmed,
      and without a closing bracket. */
  lemma PrintThenParseExactly(targets: seq<string>)
    ensures Targets(Print(targets)) == targets <==> forall t :: t in targets ==> Printable(t)
  {
    hide Targets, BareValues, Split, Bracketed, TrimSpace, Print;
    TargetsArePlain(Print(targets));
    if targets == [] {
      NothingToPrint();
    } else if forall t :: t in targets ==> Printable(t) {
      PrintThenParse(targets);
    } else if Targets(Print(targets)) == targets {
      assert targets[0] in targets;
      FirstPrinted(targets);
      PrintIsTrimmed(targets);
      BareTargetsIf(Print(targets));
      EmptyBracketsChangeIf(targets);
    }
  }

  lemma BareTargetsIf(header: string)
    ensures Bracketed(header) == [] ==> Targets(header) == BareValues(Split(TrimSpace(header), ','))
  {
  }

  lemma EmptyBracketsChangeIf(targets: seq<string>)
    requires targets != [] && targets[0] != ""
    ensures targets[0][0] == '>' && (forall t :: t in targets ==> ',' !in t) ==> BareValues(Split(Print(targets), ',')) != targets
  {
    if targets[0][0] == '>' && forall t :: t in targets ==> ',' !in t {
      EmptyBracketsChange(targets);
    }
  }

  lemma BareTargets(header: string)
    requires Bracketed(header) == []
    ensures Targets(header) == BareValues(Split(TrimSpace(header), ','))
  {
  }

  lemma NothingToPrint()
    ensures Print([]) == "" && Targets("") == []
  {
    EmptyHeader();
  }

  /** In particular whatever had brackets is stable. */
  lemma ReprintIsStable(header: string)
    requires Bracketed(header) != []
    ensures Targets(Print(Targets(header))) == Targets(header)
  {
    TargetsArePlain(header);
    ReprintIsStableExactly(header);
  }

  const STRAY := "a>b"

  lemma StrayIsBare()
    ensures Bracketed(STRAY) == [] && TrimSpace(STRAY) == STRAY && Split(STRAY, ',') == [STRAY]
  {
    hide Bracketed, Split, TrimSpace, Read;
    NoBracketNoValue(STRAY);
    SpaceTrimmedIsFixed(STRAY);
    SplitNone(STRAY, ',');
  }

  lemma StrayValue()
    ensures BareValue(STRAY) == STRAY
  {
    hide TrimSpace, TrimLeft, TrimRight;
    TrimmedIsFixed(STRAY, Angle);
    SpaceTrimmedIsFixed(STRAY);
  }

  /** A bare header with a stray closing bracket is not. */
  lemma StrayBracketIsLost()
    ensures Targets(STRAY) == [STRAY] && Targets(Print([STRAY])) != [STRAY]
  {
    hide Bracketed, Split, TrimSpace, BareValue, BareValues, Targets, Print;
    StrayIsBare();
    StrayValue();
    BareValuesFirst(STRAY, []);
    NoBareValues();
    assert [STRAY] + [] == [STRAY];
    BareTargets(STRAY);
    ReprintIsStableExactly(STRAY);
    assert '>' in STRAY by { assert STRAY[1] == '>'; }
  }

  lemma NoBareValues()
    ensures BareValues([]) == []
  {
  }

  // ---------- the options offered to the reader ----------

  /** What the sanitizer accepts: a safe https URL or a valid mailto address. */
  datatype Offer = Offer(mailto: bool, url: string)

  datatype Info = Info(oneClick: bool, options: seq<Offer>)

  predicate Offers(candidates: seq<string>, sanitize: string -> Option<Offer>, k: nat, url: string)
    requires k < |candidates|
  {
    sanitize(candidates[k]).Some? && sanitize(candidates[k]).value.url == url
  }

  predicate Offered(candidates: seq<string>, sanitize: string -> Option<Offer>, n: nat, url: string)
    requires n <= |candidates|
  {
    exists k :: 0 <= k < n && Offers(candidates, sanitize, k, url)
  }

  predicate FirstOffer(candidates: seq<string>, sanitize: string -> Option<Offer>, k: nat)
    requires k < |candidates|
  {
    && sanitize(candidates[k]).Some?
    && !Offered(candidates, sanitize, k, sanitize(candidates[k]).value.url)
  }

  /** The offers of the first `n` candidates, each URL at its first occurrence. */
  function FirstOffers(candidates: seq<string>, sanitize: string -> Option<Offer>, n: nat): seq<Offer>
    requires n <= |candidates|
  {
    if n == 0 then []
    else
      FirstOffers(candidates, sanitize, n - 1)
      + if FirstOffer(candidates, sanitize, n - 1) then [sanitize(candidates[n - 1]).value] else []
  }

  function FirstThree(offers: seq<Offer>): seq<Offer> {
    if |offers| > MAX_OPTIONS then offers[..MAX_OPTIONS] else offers
  }

  lemma {:induction false} FirstOffersPrefix(candidates: seq<string>, sanitize: string -> Option<Offer>, n: nat, m: nat)
    requires n <= m <= |candidates|
    ensures |FirstOffers(candidates, sanitize, n)| <= |FirstOffers(candidates, sanitize, m)|
    ensures FirstOffers(candidates, sanitize, n) ==
            FirstOffers(candidates, sanitize, m)[..|FirstOffers(candidates, sanitize, n)|]
  {
    if n < m {
      FirstOffersPrefix(candidates, sanitize, n, m - 1);
    }
  }

  ghost predicate HasUrl(offers: seq<Offer>, url: string) {
    exists o :: o in offers && o.url == url
  }

  lemma HasUrlSnoc(offers: seq<Offer>, o: Offer, url: string)
    ensures HasUrl(offers + [o], url) <==> HasUrl(offers, url) || o.url == url
  {
    assert forall x :: x in offers + [o] <==> x in offers || x == o;
    assert o in offers + [o];
  }

  lemma OfferedStep(candidates: seq<string>, sanitize: string -> Option<Offer>, n: nat, url: string)
    requires n < |candidates|
    ensures Offered(candidates, sanitize, n + 1, url) <==>
            Offered(candidates, sanitize, n, url) || Offers(candidates, sanitize, n, url)
  {
  }

  /** The URLs offered are exactly those of the accepted candidates. */
  lemma {:induction false} FirstOffersAreAll(candidates: seq<string>, sanitize: string -> Option<Offer>, n: nat, url: string)
    requires n <= |candidates|
    ensures HasUrl(FirstOffers(candidates, sanitize, n), url) <==> Offered(candidates, sanitize, n, url)
  {
    if n > 0 {
      OfferedStep(candidates, sanitize, n - 1, url);
      FirstOffersAreAll(candidates, sanitize, n - 1, url);
      var before := FirstOffers(candidates, sanitize, n - 1);
      if FirstOffer(candidates, sanitize, n - 1) {
        HasUrlSnoc(before, sanitize(candidates[n - 1]).value, url);
      }
    }
  }

  predicate DistinctUrls(offers: seq<Offer>) {
    forall i, j :: 0 <= i < j < |offers| ==> offers[i].url != offers[j].url
  }

  lemma {:induction false} FirstOffersAreDistinct(candidates: seq<string>, sanitize: string -> Option<Offer>, n: nat)
    requires n <= |candidates|
    ensures DistinctUrls(FirstOffers(candidates, sanitize, n))
  {
    if n > 0 {
      FirstOffersAreDistinct(candidates, sanitize, n - 1);
      if FirstOffer(candidates, sanitize, n - 1) {
        var before := FirstOffers(candidates, sanitize, n - 1);
        FirstOffersAreAll(candidates, sanitize, n - 1, sanitize(candidates[n - 1]).value.url);
        forall i | 0 <= i < |before| ensures before[i].url != sanitize(candidates[n - 1]).value.url {
          assert before[i] in before;
        }
      }
    }
  }

  /** A reader is offered at most three targets with distinct URLs, all of them accepted by the
      sanitizer; fewer than three only when that is everything the header has. */
  lemma OptionsAreComplete(candidates: seq<string>, sanitize: string -> Option<Offer>)
    ensures var options := FirstThree(FirstOffers(candidates, sanitize, |candidates|));
            && |options| <= MAX_OPTIONS
            && DistinctUrls(options)
            && (forall o :: o in options ==> Offered(candidates, sanitize, |candidates|, o.url))
            && (|options| < MAX_OPTIONS ==>
                  forall k :: 0 <= k < |candidates| && sanitize(candidates[k]).Some? ==>
                    HasUrl(options, sanitize(candidates[k]).value.url))
  {
    var offers := FirstOffers(candidates, sanitize, |candidates|);
    FirstOffersAreDistinct(candidates, sanitize, |candidates|);
    forall o | o in offers ensures Offered(candidates, sanitize, |candidates|, o.url) {
      assert HasUrl(offers, o.url);
      FirstOffersAreAll(candidates, sanitize, |candidates|, o.url);
    }
    forall k | 0 <= k < |candidates| && sanitize(candidates[k]).Some?
      ensures HasUrl(offers, sanitize(candidates[k]).value.url)
    {
      FirstOffersAreAll(candidates, sanitize, |candidates|, sanitize(candidates[k]).value.url);
      assert Offers(candidates, sanitize, k, sanitize(candidates[k]).value.url);
    }
  }

  lemma FirstOffersStep(candidates: seq<string>, sanitize: string -> Option<Offer>, k: nat, seen: set<string>)
    requires k < |candidates|
    requires forall u :: u in seen <==> HasUrl(FirstOffers(candidates, sanitize, k), u)
    ensures var accepted := sanitize(candidates[k]);
            var before, after := FirstOffers(candidates, sanitize, k), FirstOffers(candidates, sanitize, k + 1);
            if accepted.None? || accepted.value.url in seen then after == before
            else after == before + [accepted.value] && forall u :: HasUrl(after, u) <==> u in seen + {accepted.value.url}
  {
    var accepted := sanitize(candidates[k]);
    if accepted.Some? {
      FirstOffersAreAll(candidates, sanitize, k, accepted.value.url);
      forall u ensures HasUrl(FirstOffers(candidates, sanitize, k) + [accepted.value], u) <==> u in seen + {accepted.value.url} {
        HasUrlSnoc(FirstOffers(candidates, sanitize, k), accepted.value, u);
      }
    }
  }

  /** `oneClickPost` tells whether the companion header announces one-click unsubscription. */
  method ParseUnsubscribeInfo(header: string, oneClickPost: bool, sanitize: string -> Option<Offer>)
    returns (info: Option<Info>)
    ensures var options := FirstThree(FirstOffers(Targets(header), sanitize, |Targets(header)|));
            info == if options == [] then None else Some(Info(oneClickPost, options))
  {
    hide FirstOffers, Targets, HasUrl;
    var candidates := ListUnsubscribeCandidates(header);
    var options: seq<Offer> := [];
    var seen: set<string> := {};
    NoOffers(candidates, sanitize);
    var k := 0;
    while k < |candidates|
      invariant k <= |candidates|
      invariant options == FirstOffers(candidates, sanitize, k)
      invariant |options| < MAX_OPTIONS
      invariant forall u :: u in seen <==> HasUrl(FirstOffers(candidates, sanitize, k), u)
    {
      FirstOffersStep(candidates, sanitize, k, seen);
      FirstOffersPrefix(candidates, sanitize, k + 1, |candidates|);
      var option := sanitize(candidates[k]);
      k := k + 1;
      if option.None? || option.value.url in seen {
        continue;
      }
      seen := seen + {option.value.url};
      options := options + [option.value];
      if |options| >= MAX_OPTIONS {
        break;
      }
    }
    ghost var all := FirstOffers(candidates, sanitize, |candidates|);
    assert all[..|all|] == all;
    assert options == FirstThree(all);
    if |options| == 0 {
      return None;
    }
    info := Some(Info(oneClickPost, options));
  }

  lemma NoOffers(candidates: seq<string>, sanitize: string -> Option<Offer>)
    ensures FirstOffers(candidates, sanitize, 0) == [] && forall u :: !HasUrl([], u)
  {
  }
}
