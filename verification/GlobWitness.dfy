/** Resolving a glob to one concrete path that it matches (internal/verification/protected.go).

    Patterns are text; the fragment whose meaning is modelled has literals, star runs, question
    marks and non-negated bracket classes, in segments separated by slashes. */
module GlobWitness {
  import Common

  const PROBE := "__aidev_protected_probe__"

  // ---------- the source's rewriting, on pattern text ----------

  /** How much of t, taken inside a class, the class still covers: up to and with its "]". */
  function CloseLen(t: string): (n: nat)
    ensures n <= |t|
  {
    if t == "" then 0
    else if t[0] == ']' then 1
    else if t[0] == '\\' then (if |t| == 1 then 1 else 2 + CloseLen(t[2..]))
    else 1 + CloseLen(t[1..])
  }

  /** The length of the bracket class t starts with. */
  function ClassLen(t: string): (n: nat)
    requires t != ""
    ensures 1 <= n <= |t|
  {
    var j := if 1 < |t| && (t[1] == '^' || t[1] == '!') then 2 else 1;
    var k := if j < |t| && t[j] == ']' then j + 1 else j;
    k + CloseLen(t[k..])
  }

  lemma CloseStep(seg: string, j: nat)
    requires j < |seg| && seg[j] != ']'
    ensures seg[j] != '\\' ==> CloseLen(seg[j..]) == 1 + CloseLen(seg[j + 1..])
    ensures seg[j] == '\\' && j + 1 < |seg| ==> CloseLen(seg[j..]) == 2 + CloseLen(seg[j + 2..])
    ensures seg[j] == '\\' && j + 1 == |seg| ==> CloseLen(seg[j..]) == 1
  {
    var t := seg[j..];
    assert t[1..] == seg[j + 1..];
    assert |t| > 1 ==> t[2..] == seg[j + 2..];
  }

  /** Where the search for the closing bracket starts. */
  lemma ClassLenAt(seg: string, i: nat, k: nat)
    requires i < |seg|
    requires
      var j := if i + 1 < |seg| && (seg[i + 1] == '^' || seg[i + 1] == '!') then i + 2 else i + 1;
      k == if j < |seg| && seg[j] == ']' then j + 1 else j
    ensures k <= |seg| && i + ClassLen(seg[i..]) == k + CloseLen(seg[k..])
  {
    assert seg[i..][k - i..] == seg[k..];
  }

  /** The loop from there on. */
  method CloseFrom(seg: string, from: nat) returns (end: nat)
    requires from <= |seg|
    ensures end == from + CloseLen(seg[from..])
  {
    var j := from;
    ghost var total := from + CloseLen(seg[from..]);
    while j < |seg| && seg[j] != ']'
      invariant total == if j <= |seg| then j + CloseLen(seg[j..]) else |seg|
      decreases |seg| - j
    {
      CloseStep(seg, j);
      if seg[j] == '\\' {
        j := j + 1;
      }
      j := j + 1;
    }
    if j >= |seg| {
      return |seg|;
    }
    return j + 1;
  }

  method ClassEnd(seg: string, i: nat) returns (end: nat)
    requires i < |seg|
    ensures end == i + ClassLen(seg[i..])
  {
    var j := i + 1;
    if j < |seg| && (seg[j] == '^' || seg[j] == '!') {
      j := j + 1;
    }
    if j < |seg| && seg[j] == ']' {
      j := j + 1;
    }
    ClassLenAt(seg, i, j);
    end := CloseFrom(seg, j);
  }

  /** string(b) of the first byte of c's UTF-8 encoding: the character itself only for ASCII. */
  function FirstByte(c: char): char {
    var n := c as int;
    if n < 0x80 then c
    else if n < 0x800 then (0xC0 + n / 0x40) as char
    else if n < 0x10000 then (0xE0 + n / 0x1000) as char
    else (0xF0 + n / 0x40000) as char
  }

  function FirstOutside(candidates: string, inner: string): string
    requires inner != ""
  {
    if candidates == "" then [FirstByte(inner[0])]
    else if candidates[0] !in inner then [candidates[0]]
    else FirstOutside(candidates[1..], inner)
  }

  /** One character standing for a class, given with its brackets. */
  function ClassRepresentative(text: string): string {
    var tail := if text != "" && text[0] == '[' then text[1..] else text;
    var inner := if tail != "" && tail[|tail| - 1] == ']' then tail[..|tail| - 1] else tail;
    var negated := inner != "" && (inner[0] == '^' || inner[0] == '!');
    var body := if negated then inner[1..] else inner;
    if body == "" then "x"
    else if negated then FirstOutside("abcdefghijklmnopqrstuvwxyz0123456789", body)
    else if body[0] == '\\' && |body| > 1 then [FirstByte(body[1])]
    else [FirstByte(body[0])]
  }

  function StarLen(t: string): (n: nat)
    ensures n <= |t|
    ensures t != "" && t[0] == '*' ==> n > 0
  {
    if t != "" && t[0] == '*' then 1 + StarLen(t[1..]) else 0
  }

  /** One segment with every wildcard run replaced. */
  function Placeholder(t: string): string
    decreases |t|
  {
    if t == "" then ""
    else if t[0] == '*' then PROBE + Placeholder(t[StarLen(t)..])
    else if t[0] == '?' then "x" + Placeholder(t[1..])
    else if t[0] == '[' then ClassRepresentative(t[..ClassLen(t)]) + Placeholder(t[ClassLen(t)..])
    else [t[0]] + Placeholder(t[1..])
  }

  /** The index just past the run of stars that starts at i. */
  method StarEnd(seg: string, i: nat) returns (end: nat)
    requires i < |seg| && seg[i] == '*'
    ensures i < end <= |seg| && end == i + StarLen(seg[i..])
  {
    end := i + 1;
    assert seg[i..][1..] == seg[end..];
    while end < |seg| && seg[end] == '*'
      invariant i < end <= |seg|
      invariant i + StarLen(seg[i..]) == end + StarLen(seg[end..])
    {
      assert seg[end..][1..] == seg[end + 1..];
      end := end + 1;
    }
  }

  /** One round of the rewriting loop: the piece written for what stands at i, and where it ends. */
  method RewriteAt(seg: string, i: nat) returns (piece: string, next: nat)
    requires i < |seg|
    ensures i < next <= |seg|
    ensures Placeholder(seg[i..]) == piece + Placeholder(seg[next..])
  {
    ghost var t := seg[i..];
    next := i + 1;
    match seg[i] {
      case '*' =>
        next := StarEnd(seg, i);
        piece := PROBE;
      case '?' => piece := "x";
      case '[' =>
        next := ClassEnd(seg, i);
        assert t[..next - i] == seg[i..next];
        piece := ClassRepresentative(seg[i..next]);
      case c => piece := [c];
    }
    assert t[next - i..] == seg[next..];
  }

  method MagicPlaceholder(seg: string) returns (out: string)
    ensures out == Placeholder(seg)
  {
    out := "";
    var i := 0;
    ghost var left := Placeholder(seg);
    assert seg[0..] == seg;
    while i < |seg|
      invariant i <= |seg|
      invariant left == Placeholder(seg[i..]) && Placeholder(seg) == out + left
      decreases |seg| - i
    {
      var piece, next := RewriteAt(seg, i);
      left := Placeholder(seg[next..]);
      Common.Reassociate(out, piece, left);
      out := out + piece;
      i := next;
    }
  }

  // ---------- paths and their segments ----------

  function Join(segs: seq<string>): string {
    if segs == [] then "" else if |segs| == 1 then segs[0] else segs[0] + "/" + Join(segs[1..])
  }

  /** strings.Split at slashes. */
  function Split(p: string): (segs: seq<string>)
    ensures segs != []
  {
    if p == "" then [""]
    else
      var rest := Split(p[1..]);
      if p[0] == '/' then [""] + rest else [[p[0]] + rest[0]] + rest[1..]
  }

  lemma {:induction false} SplitSegment(seg: string, rest: string)
    requires '/' !in seg
    ensures Split(seg) == [seg]
    ensures Split(seg + "/" + rest) == [seg] + Split(rest)
  {
    var p := seg + "/" + rest;
    if seg == "" {
      assert p[0] == '/' && p[1..] == rest;
    } else {
      SplitSegment(seg[1..], rest);
      assert p[0] == seg[0] && p[1..] == seg[1..] + "/" + rest;
      assert [seg[0]] + seg[1..] == seg;
    }
  }

  lemma {:induction false} SplitJoin(segs: seq<string>)
    requires segs != [] && forall s :: s in segs ==> '/' !in s
    ensures Split(Join(segs)) == segs
  {
    if |segs| == 1 {
      SplitSegment(segs[0], "");
    } else {
      SplitJoin(segs[1..]);
      SplitSegment(segs[0], Join(segs[1..]));
    }
  }

  function Placeholders(segs: seq<string>): seq<string> {
    seq(|segs|, i requires 0 <= i < |segs| => Placeholder(segs[i]))
  }

  function Resolved(pattern: string): string {
    Join(Placeholders(Split(pattern)))
  }

  predicate HasMagic(seg: string) { '*' in seg || '?' in seg || '[' in seg }

  lemma {:induction false} NoMagic(seg: string)
    requires !HasMagic(seg)
    ensures Placeholder(seg) == seg
  {
    if seg != "" {
      NoMagic(seg[1..]);
    }
  }

  method ResolveMagic(pattern: string) returns (path: string)
    ensures path == Resolved(pattern)
  {
    var segs := Split(pattern);
    var out := segs;
    for i := 0 to |segs|
      invariant |out| == |segs|
      invariant forall j :: 0 <= j < i ==> out[j] == Placeholder(segs[j])
      invariant forall j :: i <= j < |segs| ==> out[j] == segs[j]
    {
      if HasMagic(segs[i]) {
        var p := MagicPlaceholder(segs[i]);
        out := out[i := p];
      } else {
        NoMagic(segs[i]);
      }
    }
    assert out == Placeholders(segs);
    return Join(out);
  }

  // ---------- what the fragment's patterns mean ----------

  datatype Item = Single(c: char) | Range(c: char, hi: char)

  datatype Token = Literal(c: char) | Stars(n: nat) | AnyOne | Class(items: seq<Item>)

  predicate ClassChar(c: char) { c !in "]\\/-" }

  predicate TokenOk(t: Token) {
    match t
    case Literal(c) => c !in "*?[\\{}/"
    case Stars(n) => n > 0
    case AnyOne => true
    case Class(items) =>
      && items != [] && items[0].c != '^' && items[0].c != '!'
      && forall i :: i in items ==> ClassChar(i.c) && (i.Range? ==> ClassChar(i.hi))
  }

  /** A star run is one token. */
  predicate SegmentOk(ts: seq<Token>) {
    && (forall t :: t in ts ==> TokenOk(t))
    && forall i :: 0 <= i < |ts| - 1 ==> ts[i].Stars? ==> !ts[i + 1].Stars?
  }

  function Repeat(c: char, n: nat): string {
    if n == 0 then "" else [c] + Repeat(c, n - 1)
  }

  function RenderItems(items: seq<Item>): string {
    if items == [] then ""
    else (if items[0].Single? then [items[0].c] else [items[0].c, '-', items[0].hi]) + RenderItems(items[1..])
  }

  function RenderToken(t: Token): string {
    match t
    case Literal(c) => [c]
    case Stars(n) => Repeat('*', n)
    case AnyOne => "?"
    case Class(items) => "[" + RenderItems(items) + "]"
  }

  function Render(ts: seq<Token>): string {
    if ts == [] then "" else RenderToken(ts[0]) + Render(ts[1..])
  }

  /** The low end of a range is accepted even when the range is reversed. */
  predicate ItemAccepts(i: Item, c: char) {
    c == i.c || (i.Range? && i.c <= c <= i.hi)
  }

  predicate Accepts(items: seq<Item>, c: char) {
    exists i :: i in items && ItemAccepts(i, c)
  }

  /** The glob matches the text of one segment. */
  ghost predicate MatchSegment(ts: seq<Token>, text: string)
    decreases |ts|
  {
    if ts == [] then text == ""
    else match ts[0]
      case Literal(c) => text != "" && text[0] == c && MatchSegment(ts[1..], text[1..])
      case AnyOne => text != "" && text[0] != '/' && MatchSegment(ts[1..], text[1..])
      case Class(items) => text != "" && Accepts(items, text[0]) && MatchSegment(ts[1..], text[1..])
      case Stars(_) => exists k :: 0 <= k <= |text| && '/' !in text[..k] && MatchSegment(ts[1..], text[k..])
  }

  /** The glob matches a path; a segment "**" stands for any number of segments. */
  ghost predicate MatchPath(pattern: seq<seq<Token>>, path: seq<string>)
    decreases |pattern|
  {
    if pattern == [] then path == []
    else if pattern[0] == [Stars(2)] then
      exists k :: 0 <= k <= |path| && MatchPath(pattern[1..], path[k..])
    else path != [] && MatchSegment(pattern[0], path[0]) && MatchPath(pattern[1..], path[1..])
  }

  /** What one token matches. */
  lemma OneToken(t: Token, text: string)
    ensures MatchSegment([t], text) <==>
      match t
      case Literal(c) => text == [c]
      case AnyOne => |text| == 1 && text[0] != '/'
      case Class(items) =>
        |text| == 1 && exists i :: i in items && (text[0] == i.c || (i.Range? && i.c <= text[0] <= i.hi))
      case Stars(_) => '/' !in text
  {
    assert [t][1..] == [];
    if t.Class? {
      ItemsAccept(t.items, text);
    }
    if t.Stars? {
      assert text[..|text|] == text;
      assert MatchSegment([], text[|text|..]);
    }
  }

  lemma ItemsAccept(items: seq<Item>, text: string)
    ensures |text| == 1 ==>
      (Accepts(items, text[0]) <==> exists i :: i in items && (text[0] == i.c || (i.Range? && i.c <= text[0] <= i.hi)))
  {
  }

  /** Two pieces of a segment match what can be cut into a text for each. */
  lemma {:induction false} MatchSplit(a: seq<Token>, b: seq<Token>, text: string)
    ensures MatchSegment(a + b, text) <==> CanCut(a, b, text)
    decreases |a|
  {
    if a == [] {
      assert a + b == b && text[0..] == text;
      assert MatchSegment(b, text) ==> MatchSegment(a, text[..0]) && MatchSegment(b, text[0..]);
    } else {
      assert (a + b)[1..] == a[1..] + b;
      if a[0].Stars? {
        SplitAtStar(a, b, text);
      } else {
        SplitAtOne(a, b, text);
      }
    }
  }

  ghost predicate CanCut(a: seq<Token>, b: seq<Token>, text: string) {
    exists k :: 0 <= k <= |text| && MatchSegment(a, text[..k]) && MatchSegment(b, text[k..])
  }

  lemma {:induction false} SplitAtOne(a: seq<Token>, b: seq<Token>, text: string)
    requires a != [] && !a[0].Stars? && (a + b)[1..] == a[1..] + b
    ensures MatchSegment(a + b, text) <==> CanCut(a, b, text)
    decreases |a|, 0
  {
    if text != "" {
      var rest := text[1..];
      MatchSplit(a[1..], b, rest);
      if CanCut(a[1..], b, rest) {
        var k :| 0 <= k <= |rest| && MatchSegment(a[1..], rest[..k]) && MatchSegment(b, rest[k..]);
        assert text[..k + 1][1..] == rest[..k] && text[k + 1..] == rest[k..];
        assert MatchSegment(a + b, text) ==> MatchSegment(a, text[..k + 1]);
      }
      if CanCut(a, b, text) {
        var k :| 0 <= k <= |text| && MatchSegment(a, text[..k]) && MatchSegment(b, text[k..]);
        assert text[..k][1..] == rest[..k - 1] && text[k..] == rest[k - 1..];
      }
    }
  }

  lemma {:induction false} SplitAtStar(a: seq<Token>, b: seq<Token>, text: string)
    requires a != [] && a[0].Stars? && (a + b)[1..] == a[1..] + b
    ensures MatchSegment(a + b, text) <==> CanCut(a, b, text)
    decreases |a|, 0
  {
    if MatchSegment(a + b, text) {
      var k :| 0 <= k <= |text| && '/' !in text[..k] && MatchSegment(a[1..] + b, text[k..]);
      MatchSplit(a[1..], b, text[k..]);
      var m :| 0 <= m <= |text[k..]| && MatchSegment(a[1..], text[k..][..m]) && MatchSegment(b, text[k..][m..]);
      assert text[..k + m][..k] == text[..k] && text[..k + m][k..] == text[k..][..m] && text[k + m..] == text[k..][m..];
      assert MatchSegment(a, text[..k + m]);
    }
    if CanCut(a, b, text) {
      var n :| 0 <= n <= |text| && MatchSegment(a, text[..n]) && MatchSegment(b, text[n..]);
      var k :| 0 <= k <= n && '/' !in text[..n][..k] && MatchSegment(a[1..], text[..n][k..]);
      var rest := text[k..];
      assert text[..n][..k] == text[..k] && text[..n][k..] == rest[..n - k] && text[n..] == rest[n - k..];
      assert CanCut(a[1..], b, rest);
      MatchSplit(a[1..], b, rest);
    }
  }

  /** A segment of two stars matches any number of segments. */
  lemma DoubleStarMatches(rest: seq<seq<Token>>, path: seq<string>)
    ensures MatchPath([[Stars(2)]] + rest, path) <==> exists k :: 0 <= k <= |path| && MatchPath(rest, path[k..])
  {
    assert ([[Stars(2)]] + rest)[1..] == rest;
  }

  // ---------- the rewriting yields a match ----------

  /** What the rewriting makes of one token. */
  function Witness(t: Token): string
    requires TokenOk(t)
  {
    match t
    case Literal(c) => [c]
    case Stars(_) => PROBE
    case AnyOne => "x"
    case Class(items) => [FirstByte(items[0].c)]
  }

  function Witnesses(ts: seq<Token>): string
    requires forall t :: t in ts ==> TokenOk(t)
  {
    if ts == [] then "" else Witness(ts[0]) + Witnesses(ts[1..])
  }

  lemma {:induction false} CloseLenOf(items: seq<Item>, rest: string)
    requires forall i :: i in items ==> ClassChar(i.c) && (i.Range? ==> ClassChar(i.hi))
    ensures CloseLen(RenderItems(items) + "]" + rest) == |RenderItems(items)| + 1
  {
    var t := RenderItems(items) + "]" + rest;
    if items == [] {
      assert t[0] == ']';
    } else {
      var tail := RenderItems(items[1..]) + "]" + rest;
      CloseLenOf(items[1..], rest);
      assert items[0] in items;
      assert t[0] == items[0].c;
      if items[0].Single? {
        assert t[1..] == tail;
      } else {
        var t1, t2 := t[1..], t[2..];
        assert t1[0] == '-' && t1[1..] == t2 && t2[0] == items[0].hi && t2[1..] == tail;
        assert CloseLen(t) == 1 + CloseLen(t1) && CloseLen(t1) == 1 + CloseLen(t2);
      }
    }
  }

  lemma ClassLenOf(items: seq<Item>, rest: string)
    requires TokenOk(Class(items))
    ensures ClassLen("[" + RenderItems(items) + "]" + rest) == |RenderItems(items)| + 2
  {
    var body := RenderItems(items);
    var t := "[" + body + "]" + rest;
    assert body[0] == items[0].c;
    assert items[0] in items;
    assert t[1] == body[0];
    assert t[1..] == body + "]" + rest;
    CloseLenOf(items, rest);
  }

  lemma RepresentativeOf(items: seq<Item>)
    requires TokenOk(Class(items))
    ensures ClassRepresentative("[" + RenderItems(items) + "]") == [FirstByte(items[0].c)]
  {
    assert items[0] in items;
    assert RenderItems(items)[0] == items[0].c;
    PlainRepresentative(RenderItems(items));
  }

  lemma PlainRepresentative(body: string)
    requires body != "" && body[0] != '^' && body[0] != '!' && body[0] != '\\'
    ensures ClassRepresentative("[" + body + "]") == [FirstByte(body[0])]
  {
    var text := "[" + body + "]";
    assert text[1..] == body + "]";
    assert (body + "]")[..|body|] == body;
  }

  const FALLBACKS := "abcdefghijklmnopqrstuvwxyz0123456789"

  /** A negated class becomes the first letter or digit it does not exclude, if there is one. */
  lemma NegatedRepresentative(body: string, i: nat)
    requires body != "" && i < |FALLBACKS| && FALLBACKS[i] !in body && forall j :: 0 <= j < i ==> FALLBACKS[j] in body
    ensures ClassRepresentative("[^" + body + "]") == [FALLBACKS[i]] && ClassRepresentative("[!" + body + "]") == [FALLBACKS[i]]
  {
    FirstOutsideIs(FALLBACKS, body, i);
    Negated('^', body);
    Negated('!', body);
    assert "[" + ['^'] == "[^" && "[" + ['!'] == "[!";
  }

  lemma Negated(sign: char, body: string)
    requires body != "" && (sign == '^' || sign == '!')
    ensures ClassRepresentative("[" + [sign] + body + "]") == FirstOutside(FALLBACKS, body)
  {
    var text := "[" + [sign] + body + "]";
    assert text[1..] == [sign] + body + "]";
    assert ([sign] + body + "]")[..|body| + 1] == [sign] + body;
    assert ([sign] + body)[1..] == body;
  }

  lemma {:induction false} FirstOutsideIs(candidates: string, inner: string, i: nat)
    requires inner != "" && i < |candidates| && candidates[i] !in inner && forall j :: 0 <= j < i ==> candidates[j] in inner
    ensures FirstOutside(candidates, inner) == [candidates[i]]
  {
    if i > 0 {
      FirstOutsideIs(candidates[1..], inner, i - 1);
    }
  }

  /** An escaped character stands for itself. */
  lemma EscapedRepresentative(body: string)
    requires |body| > 1 && body[0] == '\\'
    ensures ClassRepresentative("[" + body + "]") == [FirstByte(body[1])]
  {
    assert ("[" + body + "]")[1..] == body + "]";
    assert (body + "]")[..|body|] == body;
  }

  /** A class that is not closed is read to the end of the segment. */
  lemma UnclosedRepresentative(body: string)
    requires body != "" && body[|body| - 1] != ']' && body[0] != '^' && body[0] != '!' && body[0] != '\\'
    ensures ClassRepresentative("[" + body) == [FirstByte(body[0])]
  {
    assert ("[" + body)[1..] == body;
  }

  /** A character is written as the lead byte of its encoding in UTF-8 (section 3 of RFC 3629), which is
      the character itself only for ASCII and for U+00C3. */
  lemma FirstByteIs(c: char)
    ensures FirstByte(c) == c <==> c as int < 0x80 || c as int == 0xC3
    ensures 0x80 <= c as int < 0x800 ==> 0xC2 <= FirstByte(c) as int <= 0xDF
    ensures 0x800 <= c as int < 0x10000 ==> 0xE0 <= FirstByte(c) as int <= 0xEF
    ensures 0x10000 <= c as int ==> 0xF0 <= FirstByte(c) as int <= 0xF4
  {
  }

  lemma {:induction false} StarsOf(n: nat, rest: string)
    requires rest == "" || rest[0] != '*'
    ensures StarLen(Repeat('*', n) + rest) == n == |Repeat('*', n)|
  {
    if n == 0 {
      assert Repeat('*', n) + rest == rest;
    } else {
      StarsOf(n - 1, rest);
      assert (Repeat('*', n) + rest)[1..] == Repeat('*', n - 1) + rest;
    }
  }

  lemma RenderStart(ts: seq<Token>)
    requires SegmentOk(ts)
    ensures Render(ts) == "" || Render(ts)[0] != '*' || (ts != [] && ts[0].Stars?)
  {
    if ts != [] {
      assert TokenOk(ts[0]);
      assert RenderToken(ts[0]) != "" && Render(ts)[0] == RenderToken(ts[0])[0];
    }
  }

  lemma {:induction false} PlaceholderOf(ts: seq<Token>)
    requires SegmentOk(ts)
    ensures Placeholder(Render(ts)) == Witnesses(ts)
  {
    if ts != [] {
      var head, rest := RenderToken(ts[0]), Render(ts[1..]);
      var t := head + rest;
      assert TokenOk(ts[0]);
      PlaceholderOf(ts[1..]);
      match ts[0]
      case Literal(c) => assert t[0] == c && t[1..] == rest;
      case AnyOne => assert t[0] == '?' && t[1..] == rest;
      case Stars(n) =>
        RenderStart(ts[1..]);
        assert rest == "" || rest[0] != '*';
        StarsOf(n, rest);
        assert t[0] == '*' && t[n..] == rest;
      case Class(items) =>
        ClassLenOf(items, rest);
        RepresentativeOf(items);
        assert t[0] == '[' && t[..|head|] == head && t[|head|..] == rest;
    }
  }

  /** The rewriting's choice for each class is a character the class accepts. */
  predicate ClassesAcceptFirstByte(ts: seq<Token>) {
    forall t :: t in ts ==> t.Class? && t.items != [] ==> Accepts(t.items, FirstByte(t.items[0].c))
  }

  /** Every class starts with an ASCII character. */
  predicate AsciiClasses(ts: seq<Token>) {
    forall t :: t in ts ==> t.Class? && t.items != [] ==> t.items[0].c < '\U{80}'
  }

  lemma AsciiSuffices(ts: seq<Token>)
    requires AsciiClasses(ts)
    ensures ClassesAcceptFirstByte(ts)
  {
    forall t | t in ts && t.Class? && t.items != []
      ensures Accepts(t.items, FirstByte(t.items[0].c))
    {
      assert ItemAccepts(t.items[0], FirstByte(t.items[0].c));
    }
  }

  lemma {:induction false} WitnessMatches(ts: seq<Token>)
    requires SegmentOk(ts) && ClassesAcceptFirstByte(ts)
    ensures MatchSegment(ts, Witnesses(ts))
  {
    if ts != [] {
      var head, rest := Witness(ts[0]), Witnesses(ts[1..]);
      WitnessMatches(ts[1..]);
      assert (head + rest)[|head|..] == rest;
      if ts[0].Stars? {
        assert (head + rest)[..|head|] == PROBE;
      } else {
        assert (head + rest)[0] == head[0];
      }
    }
  }

  /** In a segment without stars the choice for each class decides. */
  lemma {:induction false} StarFreeIff(ts: seq<Token>)
    requires SegmentOk(ts) && forall t :: t in ts ==> !t.Stars?
    ensures MatchSegment(ts, Placeholder(Render(ts))) <==> ClassesAcceptFirstByte(ts)
  {
    PlaceholderOf(ts);
    if ts != [] {
      var head, rest := Witness(ts[0]), Witnesses(ts[1..]);
      StarFreeIff(ts[1..]);
      PlaceholderOf(ts[1..]);
      assert (head + rest)[0] == head[0] && (head + rest)[1..] == rest;
      assert forall t :: t in ts <==> t == ts[0] || t in ts[1..];
    }
  }

  function Texts(pattern: seq<seq<Token>>): seq<string> {
    seq(|pattern|, i requires 0 <= i < |pattern| => Render(pattern[i]))
  }

  function RenderPath(pattern: seq<seq<Token>>): string { Join(Texts(pattern)) }

  lemma {:induction false} NoSlash(ts: seq<Token>)
    requires SegmentOk(ts)
    ensures '/' !in Render(ts) && '/' !in Witnesses(ts)
  {
    if ts != [] {
      NoSlash(ts[1..]);
      NoSlashToken(ts[0]);
    }
  }

  lemma NoSlashToken(t: Token)
    requires TokenOk(t)
    ensures '/' !in RenderToken(t) && '/' !in Witness(t)
  {
    match t
    case Stars(n) => NoSlashRepeat(n);
    case Class(items) =>
      NoSlashItems(items);
      assert items[0] in items;
    case _ =>
  }

  lemma {:induction false} NoSlashRepeat(n: nat)
    ensures '/' !in Repeat('*', n)
  {
    if n > 0 {
      NoSlashRepeat(n - 1);
    }
  }

  lemma {:induction false} NoSlashItems(items: seq<Item>)
    requires forall i :: i in items ==> ClassChar(i.c) && (i.Range? ==> ClassChar(i.hi))
    ensures '/' !in RenderItems(items)
  {
    if items != [] {
      NoSlashItems(items[1..]);
    }
  }

  lemma {:induction false} SegmentsMatch(pattern: seq<seq<Token>>, path: seq<string>)
    requires |path| == |pattern|
    requires forall i :: 0 <= i < |pattern| ==> MatchSegment(pattern[i], path[i])
    ensures MatchPath(pattern, path)
  {
    if pattern != [] {
      assert MatchSegment(pattern[0], path[0]);
      SegmentsMatch(pattern[1..], path[1..]);
      assert path[1..] == path[1..];
    }
  }

  /** The path a pattern resolves to is matched by the pattern. */
  lemma ResolvedMatches(pattern: seq<seq<Token>>)
    requires pattern != []
    requires forall ts :: ts in pattern ==> SegmentOk(ts) && ClassesAcceptFirstByte(ts)
    ensures MatchPath(pattern, Split(Resolved(RenderPath(pattern))))
  {
    var texts := Texts(pattern);
    forall i | 0 <= i < |pattern| ensures '/' !in texts[i] && '/' !in Placeholder(texts[i])
      ensures MatchSegment(pattern[i], Placeholder(texts[i]))
    {
      assert pattern[i] in pattern;
      NoSlash(pattern[i]);
      PlaceholderOf(pattern[i]);
      WitnessMatches(pattern[i]);
    }
    SplitJoin(texts);
    SplitJoin(Placeholders(texts));
    SegmentsMatch(pattern, Placeholders(texts));
  }

  // ---------- a wildcard is never written as itself ----------

  function Brackets(s: string): nat {
    if s == "" then 0 else (if s[0] == ']' then 1 else 0) + Brackets(s[1..])
  }

  lemma {:induction false} BracketsJoined(a: string, b: string)
    ensures Brackets(a + b) == Brackets(a) + Brackets(b)
  {
    if a == "" {
      assert a + b == b;
    } else {
      assert (a + b)[1..] == a[1..] + b;
      BracketsJoined(a[1..], b);
    }
  }

  lemma {:induction false} NoBrackets(s: string)
    requires ']' !in s
    ensures Brackets(s) == 0
  {
    if s != "" {
      NoBrackets(s[1..]);
    }
  }

  lemma ProbeIsPlain()
    ensures ']' !in PROBE && !HasMagic(PROBE)
  {
  }

  lemma StarsBrackets(n: nat)
    ensures Brackets(Witness(Stars(n + 1))) == 0 && !HasMagic(Witness(Stars(n + 1)))
  {
    ProbeIsPlain();
    NoBrackets(PROBE);
  }

  lemma OneBrackets(c: char)
    ensures Brackets([c]) == if c == ']' then 1 else 0
  {
  }

  lemma ClassBrackets(items: seq<Item>)
    requires TokenOk(Class(items))
    ensures Brackets([FirstByte(items[0].c)]) == 0 < Brackets("[" + RenderItems(items) + "]")
  {
    assert items[0] in items;
    NoBrackets([FirstByte(items[0].c)]);
    BracketsJoined("[" + RenderItems(items), "]");
    assert Brackets("]") == 1;
  }

  lemma TokenBrackets(t: Token)
    requires TokenOk(t)
    ensures Brackets(Witness(t)) <= Brackets(RenderToken(t))
    ensures t.Class? ==> Brackets(Witness(t)) < Brackets(RenderToken(t))
    ensures !t.Class? ==> !HasMagic(Witness(t))
  {
    match t
    case Literal(_) =>
    case AnyOne => OneBrackets('x');
    case Stars(n) => StarsBrackets(n - 1);
    case Class(items) => ClassBrackets(items);
  }

  /** A class loses its bracket, and without classes no wildcard is left. */
  lemma {:induction false} FewerBrackets(ts: seq<Token>)
    requires forall t :: t in ts ==> TokenOk(t)
    ensures Brackets(Witnesses(ts)) <= Brackets(Render(ts))
    ensures Brackets(Witnesses(ts)) == Brackets(Render(ts)) ==> !HasMagic(Witnesses(ts))
  {
    if ts != [] {
      TokenBrackets(ts[0]);
      FewerBrackets(ts[1..]);
      BracketsJoined(RenderToken(ts[0]), Render(ts[1..]));
      BracketsJoined(Witness(ts[0]), Witnesses(ts[1..]));
    }
  }

  lemma {:induction false} NoMagicJoined(segs: seq<string>)
    requires forall seg :: seg in segs ==> !HasMagic(seg)
    ensures !HasMagic(Join(segs))
  {
    if segs != [] {
      assert !HasMagic(segs[0]);
      NoMagicJoined(segs[1..]);
    }
  }

  /** A pattern of the fragment that has a wildcard does not resolve to itself. */
  lemma MagicIsRewritten(pattern: seq<seq<Token>>)
    requires pattern != [] && forall ts :: ts in pattern ==> SegmentOk(ts)
    requires HasMagic(RenderPath(pattern))
    ensures Resolved(RenderPath(pattern)) != RenderPath(pattern)
  {
    var texts := Texts(pattern);
    forall i | 0 <= i < |pattern|
      ensures '/' !in texts[i] && '/' !in Placeholder(texts[i])
      ensures Placeholder(texts[i]) == texts[i] ==> !HasMagic(texts[i])
    {
      assert pattern[i] in pattern;
      NoSlash(pattern[i]);
      PlaceholderOf(pattern[i]);
      FewerBrackets(pattern[i]);
    }
    SplitJoin(texts);
    SplitJoin(Placeholders(texts));
    if Placeholders(texts) == texts {
      forall i | 0 <= i < |texts| ensures !HasMagic(texts[i]) {
        assert Placeholders(texts)[i] == texts[i];
      }
      NoMagicJoined(texts);
    }
  }

  lemma LiteralTexts(pattern: seq<seq<Token>>)
    requires pattern != [] && forall ts :: ts in pattern ==> SegmentOk(ts)
    requires !HasMagic(RenderPath(pattern))
    ensures forall ts :: ts in pattern ==> !HasMagic(Render(ts))
  {
    var texts := Texts(pattern);
    forall i | 0 <= i < |pattern| ensures !HasMagic(texts[i]) {
      CharsJoined(texts, i);
    }
    forall ts | ts in pattern ensures !HasMagic(Render(ts)) {
      var i :| 0 <= i < |pattern| && pattern[i] == ts;
      assert texts[i] == Render(ts);
    }
  }

  lemma {:induction false} CharsJoined(segs: seq<string>, i: nat)
    requires i < |segs|
    ensures forall c :: c in segs[i] ==> c in Join(segs)
  {
    if i > 0 {
      CharsJoined(segs[1..], i - 1);
    }
  }

  /** Without wildcards a pattern matches only itself. */
  lemma {:induction false} LiteralSegment(ts: seq<Token>, text: string)
    requires SegmentOk(ts) && !HasMagic(Render(ts)) && MatchSegment(ts, text)
    ensures text == Render(ts)
  {
    if ts != [] {
      assert TokenOk(ts[0]);
      assert RenderToken(ts[0]) != "" && Render(ts)[0] == RenderToken(ts[0])[0];
      assert forall c :: c in Render(ts[1..]) ==> c in Render(ts);
      LiteralSegment(ts[1..], text[1..]);
      assert text == [text[0]] + text[1..];
    }
  }

  lemma TextsFirst(pattern: seq<seq<Token>>)
    requires pattern != []
    ensures Texts(pattern) == [Render(pattern[0])] + Texts(pattern[1..])
  {
  }

  lemma StarIsMagic()
    ensures HasMagic(Render([Stars(2)]))
  {
    assert Render([Stars(2)])[0] == '*';
  }

  lemma {:induction false} LiteralPath(pattern: seq<seq<Token>>, path: seq<string>)
    requires forall ts :: ts in pattern ==> SegmentOk(ts) && !HasMagic(Render(ts))
    requires MatchPath(pattern, path)
    ensures path == Texts(pattern)
  {
    if pattern != [] {
      assert !HasMagic(Render(pattern[0])) by {
        assert pattern[0] in pattern;
      }
      StarIsMagic();
      LiteralSegment(pattern[0], path[0]);
      LiteralPath(pattern[1..], path[1..]);
      TextsFirst(pattern);
      assert path == [path[0]] + path[1..];
    }
  }

  /** A class of non-ASCII characters is replaced by a stray byte it does not accept. */
  lemma NonAsciiMissed()
    ensures var ts := [Class([Single('\U{E9}')])];
            SegmentOk(ts) && !MatchSegment(ts, Placeholder(Render(ts)))
  {
    var ts := [Class([Single('\U{E9}')])];
    assert FirstByte('\U{E9}') == '\U{C3}';
    assert ts[0] in ts;
    StarFreeIff(ts);
  }
}
