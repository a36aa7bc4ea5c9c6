/** Templates of text.format (internal/nodes/text/format.go). */
module Template {
  import opened Collections
  import opened Nodes

  /** The tags that delimit a placeholder: a brace written twice. */
  const OPEN: string := "{{"
  const CLOSE: string := "}}"

  // ------------------------------------------------------------------------ searching

  /** c is written twice at position i. */
  ghost predicate Twice(s: string, c: char, i: int) {
    0 <= i && i + 1 < |s| && s[i] == c && s[i + 1] == c
  }

  ghost predicate Nowhere(s: string, c: char) {
    forall j :: !Twice(s, c, j)
  }

  /** Where c first occurs twice in a row, from position i on, or -1. */
  function IndexFrom(s: string, c: char, i: nat): (r: int)
    ensures r == -1 || (i <= r && Twice(s, c, r))
    ensures forall j :: i <= j && Twice(s, c, j) ==> 0 <= r <= j
    decreases |s| - i
  {
    if i + 1 >= |s| then -1
    else if s[i] == c && s[i + 1] == c then i
    else IndexFrom(s, c, i + 1)
  }

  function Index(s: string, c: char): (r: int)
    ensures r == -1 || Twice(s, c, r)
    ensures forall j :: Twice(s, c, j) ==> 0 <= r <= j
  {
    IndexFrom(s, c, 0)
  }

  predicate EndsInBrace(name: string) {
    name != "" && name[|name| - 1] == '}'
  }

  /** A name followed by the closing tag: the tag is found where the name ends, unless
      the name itself ends in a brace, when it is found sooner. */
  lemma IndexOfClose(name: string, rest: string)
    requires Nowhere(name, '}')
    ensures 0 <= Index(name + (CLOSE + rest), '}') <= |name|
    ensures Index(name + (CLOSE + rest), '}') == |name| <==> !EndsInBrace(name)
  {
    var s := name + (CLOSE + rest);
    var n := |name|;
    assert s[n] == '}' && s[n + 1] == '}';
    assert Twice(s, '}', n);
    var r := Index(s, '}');
    assert r < n - 1 ==> Twice(name, '}', r);
    assert EndsInBrace(name) ==> Twice(s, '}', n - 1);
  }

  // ------------------------------------------------------------------------- trimming

  predicate IsSpace(c: char) {
    c in {'\t', '\n', '\U{B}', '\U{C}', '\r', ' ', '\U{85}', '\U{A0}', '\U{1680}',
          '\U{2028}', '\U{2029}', '\U{202F}', '\U{205F}', '\U{3000}'} ||
    '\U{2000}' <= c <= '\U{200A}'
  }

  function TrimLeft(s: string): string {
    if s != "" && IsSpace(s[0]) then TrimLeft(s[1..]) else s
  }

  function TrimRight(s: string): string {
    if s != "" && IsSpace(s[|s| - 1]) then TrimRight(s[..|s| - 1]) else s
  }

  function TrimSpace(s: string): string {
    TrimRight(TrimLeft(s))
  }

  ghost predicate Trimmed(s: string) {
    s != "" ==> !IsSpace(s[0]) && !IsSpace(s[|s| - 1])
  }

  /** t is the stretch of s from a to b. */
  ghost predicate Slice(s: string, t: string, a: int, b: int) {
    0 <= a <= b <= |s| && t == s[a..b]
  }

  ghost predicate AllSpace(s: string) {
    forall j :: 0 <= j < |s| ==> IsSpace(s[j])
  }

  lemma {:induction false} TrimLeftIs(s: string) returns (a: nat)
    ensures Slice(s, TrimLeft(s), a, |s|) && AllSpace(s[..a])
    ensures TrimLeft(s) != "" ==> !IsSpace(TrimLeft(s)[0])
  {
    a := 0;
    if s != "" && IsSpace(s[0]) {
      a := TrimLeftIs(s[1..]);
      assert s[1..][a..] == s[a + 1..];
      assert s[..a + 1] == [s[0]] + s[1..][..a];
      a := a + 1;
    }
  }

  lemma {:induction false} TrimRightIs(s: string) returns (b: nat)
    ensures Slice(s, TrimRight(s), 0, b) && AllSpace(s[b..])
    ensures TrimRight(s) != "" ==> !IsSpace(TrimRight(s)[|TrimRight(s)| - 1])
  {
    b := |s|;
    if s != "" && IsSpace(s[|s| - 1]) {
      var front := s[..|s| - 1];
      b := TrimRightIs(front);
      assert front[..b] == s[..b];
      assert s[b..] == front[b..] + [s[|s| - 1]];
    }
  }

  /** What trimming leaves is a stretch of s with no space at either end, and nothing but
      spaces is gone. */
  lemma TrimSpaceIs(s: string) returns (a: nat, b: nat)
    ensures Slice(s, TrimSpace(s), a, b) && Trimmed(TrimSpace(s))
    ensures AllSpace(s[..a]) && AllSpace(s[b..])
  {
    var left := TrimLeft(s);
    a := TrimLeftIs(s);
    var k := TrimRightIs(left);
    b := a + k;
    assert left[..k] == s[a..b];
    assert k > 0 ==> left[..k][0] == left[0];
    assert s[b..] == left[k..];
  }

  /** Trimming again changes nothing. */
  lemma TrimmedStays(s: string)
    requires Trimmed(s)
    ensures TrimSpace(s) == s
  {
  }

  lemma TrimKeepsTagOut(s: string)
    requires Nowhere(s, '}')
    ensures Nowhere(TrimSpace(s), '}')
  {
    var a, b := TrimSpaceIs(s);
    forall j
      ensures !Twice(s[a..b], '}', j)
    {
      assert !Twice(s, '}', a + j);
    }
  }

  // ------------------------------------------------------------------------- scanning

  datatype TemplateError = Unclosed | EmptyName | SpaceInName | OpenInName

  datatype Parsed<+T> = Good(value: T) | Bad(why: TemplateError)

  /** A stretch of a template: literal text, or a placeholder with its name and what
      was written between the tags. */
  datatype Item = Lit(text: string) | Hole(name: string, raw: string)

  /** A name that could be written as a needs key. */
  function ValidName(name: string): Option<TemplateError> {
    if name == "" then Some(EmptyName)
    else if ' ' in name || '\t' in name || '\n' in name then Some(SpaceInName)
    else if Index(name, '{') >= 0 then Some(OpenInName)
    else None
  }

  function Literal(text: string): seq<Item> {
    if text == "" then [] else [Lit(text)]
  }

  /** A template cut at its first pair of tags. */
  datatype Cut = NoOpen | NoClose | Piece(before: string, inner: string, next: string)

  function FirstCut(t: string): (cut: Cut)
    ensures cut.Piece? ==> |cut.next| < |t|
  {
    var start := Index(t, '{');
    if start < 0 then NoOpen
    else
      var after := t[start + 2..];
      var end := Index(after, '}');
      if end < 0 then NoClose
      else Piece(t[..start], after[..end], after[end + 2..])
  }

  /** A string taken apart around a tag at position n, and put back. */
  lemma TakenApart(s: string, tag: string, n: nat)
    requires |tag| == 2 && n + 2 <= |s| && s[n] == tag[0] && s[n + 1] == tag[1]
    ensures s == s[..n] + (tag + s[n + 2..])
  {
    var whole := s[..n] + (tag + s[n + 2..]);
    forall i | 0 <= i < |s|
      ensures whole[i] == s[i]
    {
    }
  }

  lemma CutText(t: string)
    requires FirstCut(t).Piece?
    ensures var cut := FirstCut(t); t == cut.before + (OPEN + (cut.inner + (CLOSE + cut.next)))
  {
    var start := Index(t, '{');
    var after := t[start + 2..];
    TakenApart(t, OPEN, start);
    TakenApart(after, CLOSE, Index(after, '}'));
  }

  lemma CutInner(t: string)
    requires FirstCut(t).Piece?
    ensures Nowhere(FirstCut(t).inner, '}') && Index(t, '{') == |FirstCut(t).before|
  {
    var after := t[Index(t, '{') + 2..];
    var inner := after[..Index(after, '}')];
    assert forall j :: Twice(inner, '}', j) ==> Twice(after, '}', j);
  }

  /** The template cut at all its tags, leftmost first. */
  function Scan(t: string): Parsed<seq<Item>>
    decreases |t|
  {
    match FirstCut(t)
    case NoOpen => Good(Literal(t))
    case NoClose => Bad(Unclosed)
    case Piece(before, inner, next) =>
      var name := TrimSpace(inner);
      if ValidName(name).Some? then Bad(ValidName(name).value)
      else
        match Scan(next)
        case Bad(why) => Bad(why)
        case Good(items) => Good(Literal(before) + [Hole(name, inner)] + items)
  }

  /** Literals and raw placeholder spans, put back together. */
  function Text(items: seq<Item>): string {
    if items == [] then ""
    else match items[0]
      case Lit(text) => text + Text(items[1..])
      case Hole(_, raw) => OPEN + (raw + (CLOSE + Text(items[1..])))
  }

  lemma LiteralText(text: string, tail: seq<Item>)
    ensures Text(Literal(text) + tail) == text + Text(tail)
  {
    if text == "" {
      assert Literal(text) + tail == tail;
    } else {
      assert (Literal(text) + tail)[1..] == tail;
    }
  }

  lemma PieceText(before: string, hole: Item, tail: seq<Item>)
    requires hole.Hole?
    ensures Text(Literal(before) + [hole] + tail) == before + (OPEN + (hole.raw + (CLOSE + Text(tail))))
  {
    assert Literal(before) + [hole] + tail == Literal(before) + ([hole] + tail);
    LiteralText(before, [hole] + tail);
    assert ([hole] + tail)[1..] == tail;
  }

  /** Nothing of an accepted template is lost or invented. */
  lemma {:induction false} ScanKeepsText(t: string)
    requires Scan(t).Good?
    ensures Text(Scan(t).value) == t
    decreases |t|
  {
    match FirstCut(t)
    case NoOpen =>
      LiteralText(t, []);
      assert Literal(t) + [] == Literal(t);
    case Piece(before, inner, next) =>
      ScanKeepsText(next);
      CutText(t);
      PieceText(before, Hole(TrimSpace(inner), inner), Scan(next).value);
  }

  // -------------------------------------------------------------------- what a cut is

  /** c is first written twice at position i. */
  ghost predicate FirstTwice(s: string, c: char, i: int) {
    Twice(s, c, i) && forall j :: j < i ==> !Twice(s, c, j)
  }

  /** Item k is where a reader going from left to right would put it: literal text up to
      the first opening tag, or to the end if there is none; a placeholder up to the
      first closing tag, with its name trimmed out of it. */
  ghost predicate WellCutAt(items: seq<Item>, k: nat)
    requires k < |items|
  {
    match items[k]
    case Lit(text) =>
      text != "" && if k == |items| - 1 then Nowhere(text, '{')
                    else items[k + 1].Hole? && FirstTwice(text + OPEN, '{', |text|)
    case Hole(name, raw) =>
      FirstTwice(raw + CLOSE, '}', |raw|) && name == TrimSpace(raw) && PortName(name)
  }

  /** A name that could be written as a needs key: not empty, without blank, tab or newline,
      and without an opening tag. */
  ghost predicate PortName(name: string) {
    name != "" && ' ' !in name && '\t' !in name && '\n' !in name && Nowhere(name, '{')
  }

  lemma ValidIsPortName(name: string)
    ensures ValidName(name).None? <==> PortName(name)
  {
    assert Index(name, '{') < 0 <==> Nowhere(name, '{');
  }

  ghost predicate WellCut(items: seq<Item>) {
    forall k :: 0 <= k < |items| ==> WellCutAt(items, k)
  }

  /** What stands before a placeholder, and the placeholder, in front of what is well
      cut. */
  lemma WellCutPiece(before: string, hole: Item, tail: seq<Item>)
    requires hole.Hole? && WellCut(tail) && FirstTwice(before + OPEN, '{', |before|)
    requires WellCutAt([hole], 0)
    ensures WellCut(Literal(before) + [hole] + tail)
  {
    var items := Literal(before) + [hole] + tail;
    var n := |Literal(before)|;
    forall k | 0 <= k < |items|
      ensures WellCutAt(items, k)
    {
      if k > n {
        assert WellCutAt(tail, k - n - 1) && items[k] == tail[k - n - 1];
        assert k < |items| - 1 ==> items[k + 1] == tail[k - n];
      } else {
        assert items[n] == hole;
      }
    }
  }

  lemma TailWellCut(items: seq<Item>, n: nat)
    requires WellCut(items) && n <= |items|
    ensures WellCut(items[n..])
  {
    var tail := items[n..];
    forall k | 0 <= k < |tail|
      ensures WellCutAt(tail, k)
    {
      assert WellCutAt(items, n + k);
    }
  }

  /** Where a tag is first found, seen from what stands before it alone. */
  lemma FirstFound(before: string, tag: string, c: char, rest: string)
    requires tag == [c, c]
    ensures FirstTwice(before + tag, c, |before|) <==> Index(before + (tag + rest), c) == |before|
  {
    var s, u := before + tag, before + (tag + rest);
    assert forall j :: 0 <= j < |before| + 2 ==> s[j] == u[j];
    assert forall j :: j <= |before| ==> (Twice(s, c, j) <==> Twice(u, c, j));
  }

  lemma CutIsFirst(t: string)
    requires FirstCut(t).Piece?
    ensures var cut := FirstCut(t);
      FirstTwice(cut.before + OPEN, '{', |cut.before|) && FirstTwice(cut.inner + CLOSE, '}', |cut.inner|)
  {
    var cut := FirstCut(t);
    CutText(t);
    FirstFound(cut.before, OPEN, '{', cut.inner + (CLOSE + cut.next));
    var after := t[Index(t, '{') + 2..];
    TakenApart(after, CLOSE, Index(after, '}'));
    FirstFound(cut.inner, CLOSE, '}', cut.next);
  }

  lemma {:induction false} ScanCutsWell(t: string)
    requires Scan(t).Good?
    ensures WellCut(Scan(t).value)
    decreases |t|
  {
    match FirstCut(t)
    case NoOpen =>
      assert Nowhere(t, '{');
    case Piece(before, inner, next) =>
      ScanCutsWell(next);
      CutIsFirst(t);
      ValidIsPortName(TrimSpace(inner));
      WellCutPiece(before, Hole(TrimSpace(inner), inner), Scan(next).value);
  }

  lemma Sliced(before: string, tag: string, s: string)
    requires |tag| == 2
    ensures var u := before + (tag + s);
      && |u| == |before| + 2 + |s|
      && u[..|before|] == before && u[|before| + 2..] == s
      && forall j :: 0 <= j < |before| + 2 ==> u[j] == (before + tag)[j]
  {
  }

  /** Where the first cut falls, given what stands before the opening tag. */
  lemma CutAfter(u: string, n: nat)
    requires Index(u, '{') == n && n + 2 <= |u| && Index(u[n + 2..], '}') >= 0
    ensures var s := u[n + 2..]; FirstCut(u) == Piece(u[..n], s[..Index(s, '}')], s[Index(s, '}') + 2..])
  {
  }

  /** Text written out with both tags first found where they stand is cut there. */
  lemma CutWhereWritten(before: string, raw: string, rest: string)
    requires FirstTwice(before + OPEN, '{', |before|) && FirstTwice(raw + CLOSE, '}', |raw|)
    ensures FirstCut(before + (OPEN + (raw + (CLOSE + rest)))) == Piece(before, raw, rest)
  {
    var s := raw + (CLOSE + rest);
    FirstFound(before, OPEN, '{', s);
    FirstFound(raw, CLOSE, '}', rest);
    Sliced(before, OPEN, s);
    Sliced(raw, CLOSE, rest);
    CutAfter(before + (OPEN + s), |before|);
  }

  /** One placeholder and what stands before it, scanned. */
  lemma ScanPieceWritten(before: string, hole: Item, tail: seq<Item>)
    requires hole.Hole? && FirstTwice(before + OPEN, '{', |before|) && WellCutAt([hole], 0)
    requires Scan(Text(tail)) == Good(tail)
    ensures Scan(Text(Literal(before) + [hole] + tail)) == Good(Literal(before) + [hole] + tail)
  {
    PieceText(before, hole, tail);
    CutWhereWritten(before, hole.raw, Text(tail));
    ValidIsPortName(hole.name);
  }

  /** Well cut items that do more than spell plain text begin with such a piece. */
  lemma FirstPiece(items: seq<Item>) returns (before: string, hole: Item, tail: seq<Item>)
    requires WellCut(items) && items != [] && (items[0].Lit? ==> |items| > 1)
    ensures items == Literal(before) + [hole] + tail && |tail| < |items| && WellCut(tail)
    ensures hole.Hole? && FirstTwice(before + OPEN, '{', |before|) && WellCutAt([hole], 0)
  {
    assert WellCutAt(items, 0);
    if items[0].Hole? {
      before, hole, tail := "", items[0], items[1..];
      TailWellCut(items, 1);
      assert before + OPEN == OPEN;
    } else {
      assert WellCutAt(items, 1);
      before, hole, tail := items[0].text, items[1], items[2..];
      TailWellCut(items, 2);
    }
  }

  lemma {:induction false} WellCutScans(items: seq<Item>)
    requires WellCut(items)
    ensures Scan(Text(items)) == Good(items)
    decreases |items|
  {
    if items == [] {
      PlainScans("");
    } else if items[0].Lit? && |items| == 1 {
      assert WellCutAt(items, 0);
      PlainScans(items[0].text);
      assert items == Literal(items[0].text);
    } else {
      var before, hole, tail := FirstPiece(items);
      WellCutScans(tail);
      ScanPieceWritten(before, hole, tail);
    }
  }

  lemma PlainScans(text: string)
    requires Nowhere(text, '{')
    ensures Text(Literal(text)) == text && Scan(text) == Good(Literal(text))
  {
    LiteralText(text, []);
    assert Literal(text) + [] == Literal(text);
  }

  /** A template is accepted as these items exactly when they spell it and each is cut
      where a reader would cut it. */
  lemma ScanExact(t: string, items: seq<Item>)
    ensures Scan(t) == Good(items) <==> Text(items) == t && WellCut(items)
  {
    if Scan(t) == Good(items) {
      ScanKeepsText(t);
      ScanCutsWell(t);
    }
    if Text(items) == t && WellCut(items) {
      WellCutScans(items);
    }
  }

  /** What is wrong with the text after an opening tag. */
  ghost predicate Offence(after: string, why: TemplateError) {
    match why
    case Unclosed => Nowhere(after, '}')
    case _ => exists raw, rest :: BadPlaceholder(after, raw, rest, why)
  }

  ghost predicate BadPlaceholder(after: string, raw: string, rest: string, why: TemplateError) {
    var name := TrimSpace(raw);
    var blank := ' ' in name || '\t' in name || '\n' in name;
    && after == raw + (CLOSE + rest) && FirstTwice(raw + CLOSE, '}', |raw|)
    && (why.EmptyName? ==> name == "")
    && (why.SpaceInName? ==> blank)
    && (why.OpenInName? ==> name != "" && !blank && !Nowhere(name, '{'))
  }

  /** After some well cut pieces, the first offence. */
  ghost predicate OffendsAfter(t: string, items: seq<Item>, before: string, after: string, why: TemplateError) {
    && t == Text(items) + (before + (OPEN + after)) && WellCut(items)
    && (items != [] ==> items[|items| - 1].Hole?)
    && FirstTwice(before + OPEN, '{', |before|) && Offence(after, why)
  }

  ghost predicate Offends(t: string, why: TemplateError) {
    exists items, before, after :: OffendsAfter(t, items, before, after, why)
  }

  lemma OpensFirst(t: string) returns (before: string, after: string)
    requires Index(t, '{') >= 0
    ensures t == before + (OPEN + after) && FirstTwice(before + OPEN, '{', |before|)
    ensures before == t[..Index(t, '{')] && after == t[Index(t, '{') + 2..]
  {
    var n := Index(t, '{');
    before, after := t[..n], t[n + 2..];
    TakenApart(t, OPEN, n);
    FirstFound(before, OPEN, '{', after);
  }

  lemma BadNameOffends(t: string, why: TemplateError)
    requires FirstCut(t).Piece? && ValidName(TrimSpace(FirstCut(t).inner)) == Some(why)
    ensures Offence(t[Index(t, '{') + 2..], why)
  {
    var cut, after := FirstCut(t), t[Index(t, '{') + 2..];
    CutIsFirst(t);
    TakenApart(after, CLOSE, Index(after, '}'));
    assert Index(TrimSpace(cut.inner), '{') >= 0 ==> !Nowhere(TrimSpace(cut.inner), '{');
    assert BadPlaceholder(after, cut.inner, cut.next, why);
  }

  lemma FirstCutOffends(t: string, why: TemplateError) returns (before: string, after: string)
    requires Scan(t) == Bad(why)
    requires FirstCut(t).NoClose? ||
      (FirstCut(t).Piece? && ValidName(TrimSpace(FirstCut(t).inner)) == Some(why))
    ensures OffendsAfter(t, [], before, after, why)
  {
    before, after := OpensFirst(t);
    if FirstCut(t).Piece? {
      BadNameOffends(t, why);
    } else {
      assert Nowhere(after, '}');
    }
    assert Text([]) + (before + (OPEN + after)) == before + (OPEN + after);
  }

  /** A rejected template is well cut up to its first offence, and that is what is
      reported. */
  lemma {:induction false} RejectionIsExplained(t: string, why: TemplateError)
      returns (items: seq<Item>, before: string, after: string)
    requires Scan(t) == Bad(why)
    ensures OffendsAfter(t, items, before, after, why)
    decreases |t|
  {
    if FirstCut(t).NoClose? || ValidName(TrimSpace(FirstCut(t).inner)).Some? {
      items := [];
      before, after := FirstCutOffends(t, why);
    } else {
      var cut := FirstCut(t);
      var tail;
      tail, before, after := RejectionIsExplained(cut.next, why);
      items := OnePieceMore(t, tail, before, after, why);
    }
  }

  lemma OnePieceMore(t: string, tail: seq<Item>, before: string, after: string, why: TemplateError)
      returns (items: seq<Item>)
    requires FirstCut(t).Piece? && ValidName(TrimSpace(FirstCut(t).inner)).None?
    requires OffendsAfter(FirstCut(t).next, tail, before, after, why)
    ensures OffendsAfter(t, items, before, after, why)
  {
    var cut := FirstCut(t);
    var hole := Hole(TrimSpace(cut.inner), cut.inner);
    items := Literal(cut.before) + [hole] + tail;
    CutText(t);
    CutIsFirst(t);
    ValidIsPortName(hole.name);
    WellCutPiece(cut.before, hole, tail);
    PieceText(cut.before, hole, tail);
    Regroup(cut.before, cut.inner, Text(tail), before + (OPEN + after));
    assert items[|items| - 1] == if tail == [] then hole else tail[|tail| - 1];
  }

  lemma Regroup(a: string, b: string, c: string, d: string)
    ensures a + (OPEN + (b + (CLOSE + c))) + d == a + (OPEN + (b + (CLOSE + (c + d))))
  {
    Join(CLOSE, c, d);
    Join(b, CLOSE + c, d);
    Join(OPEN, b + (CLOSE + c), d);
    Join(a, OPEN + (b + (CLOSE + c)), d);
  }

  lemma Join(a: string, b: string, c: string)
    ensures a + b + c == a + (b + c)
  {
  }

  lemma SpacesAre(c: char)
    ensures c == ' ' || '\t' <= c <= '\r' ==> IsSpace(c)
    ensures '!' <= c <= '~' ==> !IsSpace(c)
  {
  }

  /** So there is at most one way to cut a template, and it is rejected exactly when
      there is none. */
  lemma CutsAreUnique(a: seq<Item>, b: seq<Item>)
    requires WellCut(a) && WellCut(b) && Text(a) == Text(b)
    ensures a == b
  {
    ScanExact(Text(a), a);
    ScanExact(Text(a), b);
  }

  lemma RejectedExactly(t: string)
    ensures Scan(t).Bad? <==> forall items :: Text(items) == t ==> !WellCut(items)
  {
    if Scan(t).Good? {
      ScanExact(t, Scan(t).value);
    } else {
      forall items | Text(items) == t
        ensures !WellCut(items)
      {
        ScanExact(t, items);
      }
    }
  }

  // ------------------------------------------------------------------- numbering ports

  /** One piece of a parsed template. */
  datatype Segment = Verbatim(literal: string) | Port(port: nat)

  /** A name not seen before is appended. */
  function Noted(ports: seq<string>, name: string): seq<string> {
    if name in ports then ports else ports + [name]
  }

  /** The distinct names, in order of first appearance. */
  ghost function FirstNames(items: seq<Item>): seq<string> {
    if items == [] then []
    else
      var before := FirstNames(items[..|items| - 1]);
      match items[|items| - 1]
      case Lit(_) => before
      case Hole(name, _) => Noted(before, name)
  }

  /** Segment by segment, what the items say. */
  ghost predicate Numbered(items: seq<Item>, segments: seq<Segment>, ports: seq<string>) {
    && |segments| == |items|
    && forall k :: 0 <= k < |items| ==> match items[k]
         case Lit(text) => segments[k] == Verbatim(text)
         case Hole(name, _) => segments[k].Port? && segments[k].port < |ports| && ports[segments[k].port] == name
  }

  lemma {:induction false} FirstNamesDistinct(items: seq<Item>)
    ensures Distinct(FirstNames(items))
    ensures forall name :: name in FirstNames(items) <==>
      exists k :: 0 <= k < |items| && items[k].Hole? && items[k].name == name
  {
    if items != [] {
      var front := items[..|items| - 1];
      FirstNamesDistinct(front);
      forall name
        ensures name in FirstNames(items) <==> exists k :: 0 <= k < |items| && items[k].Hole? && items[k].name == name
      {
        if name in FirstNames(front) {
          var k :| 0 <= k < |front| && front[k].Hole? && front[k].name == name;
          assert items[k].Hole? && items[k].name == name;
        }
        if k :| 0 <= k < |items| && items[k].Hole? && items[k].name == name {
          assert k < |front| ==> front[k].Hole? && front[k].name == name;
        }
      }
    }
  }

  ghost predicate HoleAt(items: seq<Item>, k: nat, name: string) {
    k < |items| && items[k].Hole? && items[k].name == name
  }

  /** a has appeared at a point where b has not. */
  ghost predicate AppearsBefore(items: seq<Item>, a: string, b: string) {
    exists k :: HoleAt(items, k, a) && forall j: nat :: j <= k ==> !HoleAt(items, j, b)
  }

  lemma {:induction false} FirstNamesOrdered(items: seq<Item>, p: nat, q: nat)
    requires p < q < |FirstNames(items)|
    ensures AppearsBefore(items, FirstNames(items)[p], FirstNames(items)[q])
  {
    var front := items[..|items| - 1];
    var a, b := FirstNames(items)[p], FirstNames(items)[q];
    FirstNamesDistinct(front);
    if q < |FirstNames(front)| {
      FirstNamesOrdered(front, p, q);
      var k :| HoleAt(front, k, a) && forall j: nat :: j <= k ==> !HoleAt(front, j, b);
      assert HoleAt(items, k, a) && forall j: nat :: j <= k ==> HoleAt(items, j, b) == HoleAt(front, j, b);
    } else {
      assert a in FirstNames(front) && b !in FirstNames(front);
      var k :| 0 <= k < |front| && front[k].Hole? && front[k].name == a;
      assert HoleAt(items, k, a);
      forall j: nat | j <= k
        ensures !HoleAt(items, j, b)
      {
        assert items[j] == front[j];
      }
    }
  }

  // -------------------------------------------------------------------------- parsing

  ghost function Prefixed(done: seq<Item>, rest: Parsed<seq<Item>>): Parsed<seq<Item>> {
    match rest
    case Bad(why) => Bad(why)
    case Good(items) => Good(done + items)
  }

  /** The map finds every port noted so far. */
  ghost predicate Indexes(index: map<string, nat>, ports: seq<string>) {
    && (forall name :: name in index <==> name in ports)
    && (forall name :: name in index ==> index[name] < |ports| && ports[index[name]] == name)
  }

  /** What parsing has built from the items so far. */
  ghost predicate Built(items: seq<Item>, segments: seq<Segment>, ports: seq<string>) {
    Numbered(items, segments, ports) && ports == FirstNames(items)
  }

  lemma BuiltLiteral(items: seq<Item>, segments: seq<Segment>, ports: seq<string>, text: string)
    requires Built(items, segments, ports)
    ensures Built(items + Literal(text), segments + (if text == "" then [] else [Verbatim(text)]), ports)
  {
    if text == "" {
      assert items + Literal(text) == items && segments + [] == segments;
    } else {
      assert (items + [Lit(text)])[..|items|] == items;
    }
  }

  lemma BuiltHole(items: seq<Item>, segments: seq<Segment>, ports: seq<string>, hole: Item, port: nat)
    requires Built(items, segments, ports) && hole.Hole?
    requires port < |Noted(ports, hole.name)| && Noted(ports, hole.name)[port] == hole.name
    ensures Built(items + [hole], segments + [Port(port)], Noted(ports, hole.name))
  {
    assert (items + [hole])[..|items|] == items;
  }

  /** One name's port: the one it has, or the next. */
  method NotePort(index: map<string, nat>, ports: seq<string>, name: string)
      returns (port: nat, index': map<string, nat>, ports': seq<string>)
    requires Indexes(index, ports)
    ensures ports' == Noted(ports, name) && Indexes(index', ports')
    ensures port < |ports'| && ports'[port] == name
  {
    port, index', ports' := 0, index, ports;
    if name in index {
      port := index[name];
    } else {
      port := |ports|;
      index' := index[name := port];
      ports' := ports + [name];
    }
  }

  lemma PrefixedMore(done: seq<Item>, more: seq<Item>, rest: Parsed<seq<Item>>)
    ensures Prefixed(done, Prefixed(more, rest)) == Prefixed(done + more, rest)
  {
    if rest.Good? {
      assert done + (more + rest.value) == done + more + rest.value;
    }
  }

  lemma ScanPiece(t: string)
    requires FirstCut(t).Piece? && ValidName(TrimSpace(FirstCut(t).inner)).None?
    ensures var cut := FirstCut(t);
      Scan(t) == Prefixed(Literal(cut.before) + [Hole(TrimSpace(cut.inner), cut.inner)], Scan(cut.next))
  {
  }

  /** Segments and ports of the one way to cut a template, or why there is none. */
  method Parse(template: string) returns (r: Parsed<(seq<Segment>, seq<string>)>)
    ensures r.Good? <==> Scan(template).Good?
    ensures r.Good? ==> Built(Scan(template).value, r.value.0, r.value.1)
    ensures r.Good? ==> Text(Scan(template).value) == template && WellCut(Scan(template).value)
    ensures r.Bad? ==> Scan(template) == Bad(r.why)
    ensures r.Bad? ==> forall items :: Text(items) == template ==> !WellCut(items)
    ensures r.Bad? ==> Offends(template, r.why)
  {
    r := ParseLoop(template);
    RejectedExactly(template);
    if r.Good? {
      ScanExact(template, Scan(template).value);
    } else {
      ghost var items, before, after := RejectionIsExplained(template, r.why);
    }
  }

  method ParseLoop(template: string) returns (r: Parsed<(seq<Segment>, seq<string>)>)
    ensures r.Good? <==> Scan(template).Good?
    ensures r.Bad? ==> Scan(template) == Bad(r.why)
    ensures r.Good? ==> Built(Scan(template).value, r.value.0, r.value.1)
  {
    var segments: seq<Segment> := [];
    var ports: seq<string> := [];
    var index: map<string, nat> := map[];
    var rest := template;
    ghost var done: seq<Item> := [];
    assert Scan(template).Good? ==> [] + Scan(template).value == Scan(template).value;
    while true
      invariant Scan(template) == Prefixed(done, Scan(rest))
      invariant Built(done, segments, ports) && Indexes(index, ports)
      decreases |rest|
    {
      match FirstCut(rest) {
        case NoOpen =>
          BuiltLiteral(done, segments, ports, rest);
          if rest != "" {
            segments := segments + [Verbatim(rest)];
          }
          return Good((segments, ports));
        case NoClose =>
          return Bad(Unclosed);
        case Piece(before, inner, next) =>
          var name := TrimSpace(inner);
          var invalid := ValidName(name);
          if invalid.Some? {
            return Bad(invalid.value);
          }
          ScanPiece(rest);
          PrefixedMore(done, Literal(before) + [Hole(name, inner)], Scan(next));
          segments, ports, index := AddPiece(segments, ports, index, before, name, done, Hole(name, inner));
          done, rest := done + (Literal(before) + [Hole(name, inner)]), next;
      }
    }
  }

  method AddPiece(segments: seq<Segment>, ports: seq<string>, index: map<string, nat>, before: string, name: string,
                  ghost done: seq<Item>, ghost hole: Item)
      returns (segments': seq<Segment>, ports': seq<string>, index': map<string, nat>)
    requires Built(done, segments, ports) && Indexes(index, ports) && hole.Hole? && hole.name == name
    ensures Built(done + (Literal(before) + [hole]), segments', ports') && Indexes(index', ports')
  {
    segments' := segments;
    BuiltLiteral(done, segments, ports, before);
    if before != "" {
      segments' := segments' + [Verbatim(before)];
    } else {
      assert segments + [] == segments;
    }
    var port;
    port, index', ports' := NotePort(index, ports, name);
    BuiltHole(done + Literal(before), segments', ports, hole, port);
    segments' := segments' + [Port(port)];
    assert done + Literal(before) + [hole] == done + (Literal(before) + [hole]);
  }

  // ------------------------------------------------------------------------ rendering

  ghost predicate PortsBelow(segments: seq<Segment>, n: nat) {
    forall k :: 0 <= k < |segments| && segments[k].Port? ==> segments[k].port < n
  }

  /** The ports of a parsed template are duplicate-free and its segments stay within
      them. */
  lemma BuiltInRange(items: seq<Item>, segments: seq<Segment>, ports: seq<string>)
    requires Built(items, segments, ports)
    ensures Distinct(ports) && PortsBelow(segments, |ports|)
  {
    FirstNamesDistinct(items);
    assert forall k :: 0 <= k < |items| ==> (segments[k].Port? <==> items[k].Hole?);
  }

  /** Every placeholder replaced by its value, in one pass: what a value contains is
      not looked at again. */
  ghost function Substituted(items: seq<Item>, env: string -> string): string {
    if items == [] then ""
    else
      var last := match items[|items| - 1]
        case Lit(text) => text
        case Hole(name, _) => env(name);
      Substituted(items[..|items| - 1], env) + last
  }

  function Shown(segment: Segment, values: seq<string>): string {
    match segment
    case Verbatim(literal) => literal
    case Port(port) => if port < |values| then values[port] else ""
  }

  function Filled(segments: seq<Segment>, values: seq<string>): string {
    if segments == [] then ""
    else Filled(segments[..|segments| - 1], values) + Shown(segments[|segments| - 1], values)
  }

  /** Write the segments out, each placeholder as the value of its port. */
  method Render(segments: seq<Segment>, values: seq<string>) returns (out: string)
    requires PortsBelow(segments, |values|)
    ensures out == Filled(segments, values)
  {
    out := "";
    for k := 0 to |segments|
      invariant out == Filled(segments[..k], values)
    {
      assert segments[..k + 1][..k] == segments[..k];
      match segments[k] {
        case Verbatim(literal) => out := out + literal;
        case Port(port) => out := out + values[port];
      }
    }
    assert segments[..|segments|] == segments;
  }

  /** Rendering is substitution of each port's value for its name. */
  lemma {:induction false} RenderSubstitutes(items: seq<Item>, segments: seq<Segment>, ports: seq<string>,
                                             values: seq<string>, env: string -> string)
    requires Numbered(items, segments, ports) && |values| == |ports|
    requires forall p :: 0 <= p < |ports| ==> env(ports[p]) == values[p]
    ensures Filled(segments, values) == Substituted(items, env)
  {
    if items != [] {
      RenderSubstitutes(items[..|items| - 1], segments[..|segments| - 1], ports, values, env);
    }
  }

  // ----------------------------------------------------------------------- round trip

  /** The same items with nothing but the name between the tags. */
  ghost function Canonical(items: seq<Item>): (r: seq<Item>)
    ensures |r| == |items|
    ensures forall k :: 0 <= k < |items| ==> r[k] == Bare(items[k])
  {
    seq(|items|, k requires 0 <= k < |items| => Bare(items[k]))
  }

  ghost function Bare(item: Item): Item {
    if item.Hole? then Hole(item.name, item.name) else item
  }

  /** The items printed back as a template. */
  ghost function Print(items: seq<Item>): string {
    Text(Canonical(items))
  }

  ghost predicate Clean(items: seq<Item>) {
    forall k :: 0 <= k < |items| && items[k].Hole? ==> !EndsInBrace(items[k].name)
  }

  lemma CanonicalPiece(before: string, hole: Item, tail: seq<Item>)
    requires hole.Hole?
    ensures Canonical(Literal(before) + [hole] + tail) == Literal(before) + [Bare(hole)] + Canonical(tail)
  {
  }

  lemma PrintPiece(before: string, name: string, raw: string, tail: seq<Item>)
    ensures Print(Literal(before) + [Hole(name, raw)] + tail) == before + (OPEN + (name + (CLOSE + Print(tail))))
  {
    CanonicalPiece(before, Hole(name, raw), tail);
    PieceText(before, Hole(name, name), Canonical(tail));
  }

  /** A clean name written out bare is cut out as itself. */
  lemma CutClean(t: string, name: string, rest: string)
    requires FirstCut(t).Piece? && Nowhere(name, '}') && !EndsInBrace(name)
    ensures var before := FirstCut(t).before;
      FirstCut(before + (OPEN + (name + (CLOSE + rest)))) == Piece(before, name, rest)
  {
    CutIsFirst(t);
    IndexOfClose(name, rest);
    FirstFound(name, CLOSE, '}', rest);
    CutWhereWritten(FirstCut(t).before, name, rest);
  }

  /** A name that ends in a brace comes out shorter. */
  lemma CutBrace(t: string, name: string, rest: string)
    requires FirstCut(t).Piece? && Nowhere(name, '}') && EndsInBrace(name)
    ensures var before := FirstCut(t).before; var cut := FirstCut(before + (OPEN + (name + (CLOSE + rest))));
      cut.Piece? && cut.before == before && |cut.inner| < |name|
  {
    var before, s := FirstCut(t).before, name + (CLOSE + rest);
    CutIsFirst(t);
    FirstFound(before, OPEN, '{', s);
    Sliced(before, OPEN, s);
    IndexOfClose(name, rest);
    CutAfter(before + (OPEN + s), |before|);
  }

  lemma NameLacksClose(t: string)
    requires FirstCut(t).Piece?
    ensures Nowhere(TrimSpace(FirstCut(t).inner), '}')
    ensures TrimSpace(TrimSpace(FirstCut(t).inner)) == TrimSpace(FirstCut(t).inner)
  {
    CutInner(t);
    TrimKeepsTagOut(FirstCut(t).inner);
    var a, b := TrimSpaceIs(FirstCut(t).inner);
    TrimmedStays(TrimSpace(FirstCut(t).inner));
  }

  ghost predicate Reads(t: string, items: seq<Item>) {
    Scan(t).Good? && Canonical(Scan(t).value) == Canonical(items)
  }

  lemma PrintPlain(t: string)
    requires FirstCut(t).NoOpen?
    ensures Canonical(Literal(t)) == Literal(t) && Print(Literal(t)) == t
  {
    LiteralText(t, []);
    assert Literal(t) + [] == Literal(t);
  }

  lemma CleanPiece(before: string, hole: Item, tail: seq<Item>)
    requires hole.Hole?
    ensures Clean(Literal(before) + [hole] + tail) <==> !EndsInBrace(hole.name) && Clean(tail)
  {
    var items := Literal(before) + [hole] + tail;
    var n := |Literal(before)|;
    assert items[n] == hole;
    assert forall k :: 0 <= k < |tail| ==> items[n + 1 + k] == tail[k];
    if !EndsInBrace(hole.name) && Clean(tail) {
      forall k | 0 <= k < |items| && items[k].Hole?
        ensures !EndsInBrace(items[k].name)
      {
        assert k > n ==> items[k] == tail[k - n - 1];
      }
    }
  }

  /** A placeholder whose name ends in a brace reads back as another. */
  lemma BraceReadsShort(t: string, name: string, raw: string, tail: seq<Item>)
    requires FirstCut(t).Piece? && Nowhere(name, '}') && EndsInBrace(name)
    ensures var items := Literal(FirstCut(t).before) + [Hole(name, raw)] + tail; !Reads(Print(items), items)
  {
    var before := FirstCut(t).before;
    var items := Literal(before) + [Hole(name, raw)] + tail;
    PrintPiece(before, name, raw, tail);
    CutBrace(t, name, Print(tail));
    var u := Print(items);
    if Scan(u).Good? {
      var n := |Literal(before)|;
      SecondIsTheCut(u, n);
      assert Canonical(items)[n].name == name;
      assert Canonical(Scan(u).value)[n].name != name;
    }
  }

  /** The name read for the first placeholder is what was cut, trimmed. */
  lemma SecondIsTheCut(u: string, n: nat)
    requires FirstCut(u).Piece? && Scan(u).Good? && n == |Literal(FirstCut(u).before)|
    ensures n < |Scan(u).value| && Scan(u).value[n] == Hole(TrimSpace(FirstCut(u).inner), FirstCut(u).inner)
    ensures |TrimSpace(FirstCut(u).inner)| <= |FirstCut(u).inner|
  {
    ScanPiece(u);
    var a, b := TrimSpaceIs(FirstCut(u).inner);
  }

  /** A clean placeholder reads back as itself, and the rest as the rest does. */
  lemma CleanReadsOn(t: string, name: string, raw: string, tail: seq<Item>)
    requires FirstCut(t).Piece? && Nowhere(name, '}') && !EndsInBrace(name)
    requires TrimSpace(name) == name && ValidName(name).None?
    ensures var before := FirstCut(t).before;
      Scan(Print(Literal(before) + [Hole(name, raw)] + tail)) ==
        Prefixed(Literal(before) + [Hole(name, name)], Scan(Print(tail)))
  {
    var before := FirstCut(t).before;
    PrintPiece(before, name, raw, tail);
    CutClean(t, name, Print(tail));
    ScanPiece(Print(Literal(before) + [Hole(name, raw)] + tail));
  }

  lemma ReadsOn(before: string, name: string, raw: string, tail: seq<Item>, u: string, v: string)
    requires Scan(u) == Prefixed(Literal(before) + [Hole(name, name)], Scan(v))
    ensures Reads(u, Literal(before) + [Hole(name, raw)] + tail) <==> Reads(v, tail)
  {
    CanonicalPiece(before, Hole(name, raw), tail);
    if Scan(v).Good? {
      var items := Scan(v).value;
      CanonicalPiece(before, Hole(name, name), items);
      var head := Literal(before) + [Hole(name, name)];
      assert (head + Canonical(items))[|head|..] == Canonical(items);
      assert (head + Canonical(tail))[|head|..] == Canonical(tail);
    }
  }

  /** Printing an accepted template's items and scanning them again gives the same
      items exactly when no name ends in a brace. */
  lemma {:induction false} PrintReadsBack(t: string)
    requires Scan(t).Good?
    ensures Reads(Print(Scan(t).value), Scan(t).value) <==> Clean(Scan(t).value)
    decreases |t|
  {
    match FirstCut(t)
    case NoOpen =>
      PrintPlain(t);
    case Piece(before, inner, next) =>
      var name, tail := TrimSpace(inner), Scan(next).value;
      var items := Literal(before) + [Hole(name, inner)] + tail;
      NameLacksClose(t);
      CleanPiece(before, Hole(name, inner), tail);
      if EndsInBrace(name) {
        BraceReadsShort(t, name, inner, tail);
      } else {
        CleanReadsOn(t, name, inner, tail);
        ReadsOn(before, name, inner, tail, Print(items), Print(tail));
        PrintReadsBack(next);
      }
  }

  // --------------------------------------------------- round trip of segments and ports

  ghost predicate ParsesTo(t: string, segments: seq<Segment>, ports: seq<string>) {
    Scan(t).Good? && Built(Scan(t).value, segments, ports)
  }

  lemma {:induction false} FirstNamesBare(a: seq<Item>, b: seq<Item>)
    requires Canonical(a) == Canonical(b)
    ensures FirstNames(a) == FirstNames(b)
    decreases |a|
  {
    assert |Canonical(a)| == |Canonical(b)|;
    if a != [] {
      var a', b' := a[..|a| - 1], b[..|b| - 1];
      assert Canonical(a') == Canonical(a)[..|a| - 1];
      assert Canonical(b') == Canonical(b)[..|b| - 1];
      FirstNamesBare(a', b');
      assert Bare(a[|a| - 1]) == Canonical(a)[|a| - 1] == Canonical(b)[|a| - 1] == Bare(b[|b| - 1]);
    }
  }

  /** Segments and ports say the same as the items without their raw text. */
  lemma SameNumbering(a: seq<Item>, b: seq<Item>, segments: seq<Segment>, ports: seq<string>)
    requires Built(a, segments, ports)
    ensures Built(b, segments, ports) <==> Canonical(a) == Canonical(b)
  {
    if Canonical(a) == Canonical(b) {
      FirstNamesBare(a, b);
      assert |Canonical(a)| == |Canonical(b)|;
      forall k | 0 <= k < |b|
        ensures Bare(a[k]) == Bare(b[k])
      {
        assert Canonical(a)[k] == Canonical(b)[k];
      }
      assert Numbered(b, segments, ports);
    }
    if Built(b, segments, ports) {
      forall k | 0 <= k < |a|
        ensures Canonical(a)[k] == Canonical(b)[k]
      {
        assert Bare(a[k]) == Bare(b[k]);
      }
      assert Canonical(a) == Canonical(b);
    }
  }

  /** Printed with each placeholder as {{name}}, a template parses to the same segments
      and ports exactly when none of its ports ends in a brace. */
  lemma PrintReparses(t: string, segments: seq<Segment>, ports: seq<string>)
    requires ParsesTo(t, segments, ports)
    ensures ParsesTo(Print(Scan(t).value), segments, ports) <==>
      forall p :: 0 <= p < |ports| ==> !EndsInBrace(ports[p])
  {
    var items := Scan(t).value;
    var u := Print(items);
    PrintReadsBack(t);
    if Scan(u).Good? {
      SameNumbering(items, Scan(u).value, segments, ports);
    }
    FirstNamesDistinct(items);
    if Clean(items) {
      forall p | 0 <= p < |ports|
        ensures !EndsInBrace(ports[p])
      {
        assert ports[p] in FirstNames(items);
      }
    }
    if forall p :: 0 <= p < |ports| ==> !EndsInBrace(ports[p]) {
      forall k | 0 <= k < |items| && items[k].Hole?
        ensures !EndsInBrace(items[k].name)
      {
        assert items[k].name in FirstNames(items);
      }
    }
  }

  lemma BraceNameCut()
    ensures FirstCut("{{a} }}") == Piece("", "a} ", "")
  {
    var t := "{{a} }}";
    assert Index(t, '{') == 0;
    assert t[2..] == "a} }}" && t[..0] == "";
    assert Index("a} }}", '}') == 3;
    assert "a} }}"[..3] == "a} " && "a} }}"[5..] == "";
  }

  lemma BraceNameTrims()
    ensures TrimSpace("a} ") == "a}" && ValidName("a}").None?
  {
    assert "a} "[..2] == "a}";
    assert Index("a}", '{') == -1;
  }

  /** The shortest template that does not survive: its one name is a}. */
  lemma BraceNameExample()
    ensures Scan("{{a} }}") == Good([Hole("a}", "a} ")])
    ensures !Reads(Print([Hole("a}", "a} ")]), [Hole("a}", "a} ")])
  {
    BraceNameCut();
    BraceNameTrims();
    PlainScans("");
    assert Literal("") + [Hole("a}", "a} ")] + Literal("") == [Hole("a}", "a} ")];
    assert [Hole("a}", "a} ")][0].name == "a}" && EndsInBrace("a}");
    PrintReadsBack("{{a} }}");
  }

  // ----------------------------------------------------------------------- text.format

  datatype FormatResult = Format(node: RuntimeNode) | MissingTemplate | BadTemplate(why: TemplateError)

  /** One Text port per distinct placeholder, in order of first appearance. */
  function FormatNode(segments: seq<Segment>, ports: seq<string>): RuntimeNode {
    TypedNodeN("text.format", ports, TEXT, TEXT,
      (args: seq<Data>, o: Outcome) => o == Yields(Filled(segments, args)), false)
  }

  /** One port of type Text per name, in order, and a Text out. */
  ghost predicate TextPorts(d: Descriptor, ports: seq<string>) {
    && d.Arity() == |ports| && d.output.typ == "Text"
    && forall p :: 0 <= p < |ports| ==> d.inputs[p] == PortDescriptor(ports[p], "Text")
  }

  method NewFormat(template: string) returns (r: FormatResult, ghost segments: seq<Segment>, ghost ports: seq<string>)
    ensures r.Format? <==> template != "" && Scan(template).Good?
    ensures r.BadTemplate? ==> Scan(template) == Bad(r.why)
    ensures r.Format? ==> ParsesTo(template, segments, ports) && r.node == FormatNode(segments, ports)
    ensures r.Format? ==> TextPorts(r.node.Describe(), ports)
  {
    segments, ports := [], [];
    if template == "" {
      return MissingTemplate, [], [];
    }
    var parsed := Parse(template);
    match parsed {
      case Bad(why) =>
        return BadTemplate(why), [], [];
      case Good(value) =>
        return Format(FormatNode(value.0, value.1)), value.0, value.1;
    }
  }

  /** What such a node can return on inputs it admits is one thing: the template with each
      placeholder replaced by the text on the port of its name. */
  lemma FormatSubstitutes(t: string, segments: seq<Segment>, ports: seq<string>, inputs: seq<Value>, r: ResultValue,
                          env: string -> string)
    requires ParsesTo(t, segments, ports)
    requires Admits(FormatNode(segments, ports).Describe(), inputs)
    requires forall p :: 0 <= p < |ports| ==>
      p < |inputs| && inputs[p].ref.Ref? && env(ports[p]) == inputs[p].ref.data
    ensures Possible(FormatNode(segments, ports), inputs, r) <==>
      r == Ok(Value("Text", Ref("Text", Substituted(Scan(t).value, env))))
  {
    var node := FormatNode(segments, ports);
    var text := Substituted(Scan(t).value, env);
    RenderSubstitutes(Scan(t).value, segments, ports, Payloads(inputs), env);
    AdapterMeetsDescriptor(node, inputs, Yields(text));
    assert Allows(node, inputs, Yields(text));
    if Possible(node, inputs, r) {
      var o :| Allows(node, inputs, o) && r == node.Execute(inputs, o);
      AdapterMeetsDescriptor(node, inputs, o);
    }
  }

  /** A template with more than one placeholder name has ports a list cannot bind. */
  lemma FormatPortsShareType(segments: seq<Segment>, ports: seq<string>)
    ensures FormatNode(segments, ports).Describe().TypeDistinct() <==> |ports| <= 1
  {
    var d := FormatNode(segments, ports).Describe();
    assert |ports| > 1 ==> d.inputs[0].typ == d.inputs[1].typ;
  }
}
