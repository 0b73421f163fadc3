/** UTF-8-safe paging of log sections (internal/mcp/logs.go). */
module LogPaging {
  import opened Common
  import Utf8

  /** The start of the character containing byte i; positions at or past the end stay put. */
  function CharStart(s: Bytes, i: nat): (j: nat)
    ensures j <= i
  {
    if 0 < i < |s| && !Utf8.RuneStart(s[i]) then CharStart(s, i - 1) else i
  }

  method RuneStart(s: Bytes, at: nat) returns (i: nat)
    ensures i == CharStart(s, at)
  {
    i := at;
    while i > 0 && i < |s| && !Utf8.RuneStart(s[i])
      invariant CharStart(s, i) == CharStart(s, at)
    {
      i := i - 1;
    }
  }

  /** No other boundary lies between CharStart and i. */
  lemma {:induction false} CharStartBoundary(s: Bytes, i: nat)
    requires Utf8.Valid(s) && i <= |s|
    ensures Utf8.Boundary(s, CharStart(s, i))
    ensures forall j :: CharStart(s, i) < j <= i ==> !Utf8.Boundary(s, j)
    ensures i - CharStart(s, i) <= 3
  {
    CharStartLast(s, i);
    if i < |s| {
      Utf8.BoundaryNear(s, i);
    }
  }

  lemma {:induction false} CharStartLast(s: Bytes, i: nat)
    requires Utf8.Valid(s) && i <= |s|
    ensures Utf8.Boundary(s, CharStart(s, i))
    ensures forall j :: CharStart(s, i) < j <= i ==> !Utf8.Boundary(s, j)
  {
    if 0 < i < |s| && !Utf8.RuneStart(s[i]) {
      CharStartLast(s, i - 1);
    } else if i == 0 < |s| {
      assert Utf8.IsChar(s[..Utf8.DecodeSize(s)]);
      assert s[..Utf8.DecodeSize(s)][0] == s[0];
    }
  }

  lemma {:induction false} CharStartMonotone(s: Bytes, i: nat, j: nat)
    requires i <= j <= |s|
    ensures CharStart(s, i) <= CharStart(s, j)
  {
    if i < j < |s| && !Utf8.RuneStart(s[j]) {
      CharStartMonotone(s, i, j - 1);
    }
  }

  /** The page of s at offset: the source's window. */
  function Window(s: Bytes, offset: nat, max: nat): (w: Bytes)
  {
    if offset >= |s| then []
    else
      var start := CharStart(s, offset);
      if offset + max >= |s| then s[start..]
      else
        var end := CharStart(s, offset + max);
        CharStartMonotone(s, offset, offset + max);
        if end <= start then s[start..start + Utf8.DecodeSize(s[start..])] else s[start..end]
  }

  method WindowOf(s: Bytes, offset: nat, max: nat) returns (w: Bytes)
    ensures w == Window(s, offset, max)
  {
    if offset >= |s| {
      return [];
    }
    var start := RuneStart(s, offset);
    var end: nat := offset + max;
    if end >= |s| {
      return s[start..];
    }
    end := RuneStart(s, end);
    if end <= start {
      var size := Utf8.DecodeSize(s[start..]);
      end := start + size;
    }
    CharStartMonotone(s, offset, offset + max);
    return s[start..end];
  }

  /** Every page is whole characters; it exceeds the bound by at most three bytes, or is a
      single character when the bound is narrower than one. */
  lemma WindowWhole(s: Bytes, offset: nat, max: nat)
    requires Utf8.Valid(s)
    ensures Utf8.Valid(Window(s, offset, max))
    ensures |Window(s, offset, max)| <= max + 3 || Utf8.IsChar(Window(s, offset, max))
  {
    if offset < |s| {
      CharStartBoundary(s, offset);
      if offset + max < |s| {
        InnerWindow(s, offset, max);
      } else {
        Utf8.CutAtBoundary(s, CharStart(s, offset));
      }
    }
  }

  lemma InnerWindow(s: Bytes, offset: nat, max: nat)
    requires Utf8.Valid(s) && offset + max < |s|
    ensures Utf8.Valid(Window(s, offset, max))
    ensures |Window(s, offset, max)| <= max + 3 || Utf8.IsChar(Window(s, offset, max))
  {
    CharStartBoundary(s, offset);
    CharStartBoundary(s, offset + max);
    var start, end := CharStart(s, offset), CharStart(s, offset + max);
    if end <= start {
      OneChar(s, start);
    } else {
      Sub(s, start, end);
    }
  }

  lemma OneChar(s: Bytes, start: nat)
    requires Utf8.Valid(s) && Utf8.Boundary(s, start) && start < |s|
    ensures
      var c := s[start..start + Utf8.DecodeSize(s[start..])];
      Utf8.Valid(c) && Utf8.IsChar(c)
  {
    var n := Utf8.DecodeSize(s[start..]);
    Utf8.CharEndsAtBoundary(s, start);
    Sub(s, start, start + n);
    assert s[start..][..n] == s[start..start + n];
  }

  lemma Sub(s: Bytes, a: nat, b: nat)
    requires Utf8.Valid(s) && a <= b && Utf8.Boundary(s, a) && Utf8.Boundary(s, b)
    ensures Utf8.Valid(s[a..b])
  {
    Utf8.CutAtBoundary(s, b);
    assert Utf8.Boundary(s[..b], a);
    Utf8.CutAtBoundary(s[..b], a);
    assert s[..b][a..] == s[a..b];
  }

  /** Window k of s is narrower than the character it falls in: two consecutive page ends
      move back to the same character start. */
  ghost predicate Narrow(s: Bytes, max: nat, k: nat) {
    (k + 1) * max < |s| && CharStart(s, (k + 1) * max) == CharStart(s, k * max)
  }

  /** The first n pages of s when each request follows next_offset. */
  ghost function Pages(s: Bytes, max: nat, n: nat): seq<Bytes> {
    seq(n, k requires 0 <= k < n => PageAt(s, max, k))
  }

  ghost function PageAt(s: Bytes, max: nat, k: nat): Bytes { Window(s, k * max, max) }

  /** Where a page ending at the given offset ends when it is not narrow. */
  function PageEnd(s: Bytes, offset: nat): (e: nat)
    ensures e <= |s|
  {
    if offset >= |s| then |s| else CharStart(s, offset)
  }

  /** A page runs from one page end to the next; a narrow one repeats a character instead. */
  lemma WindowSpan(s: Bytes, offset: nat, max: nat)
    ensures PageEnd(s, offset) <= PageEnd(s, offset + max)
    ensures var narrow := offset + max < |s| && CharStart(s, offset + max) == CharStart(s, offset);
            && (!narrow ==> Window(s, offset, max) == s[PageEnd(s, offset)..PageEnd(s, offset + max)])
            && (narrow ==> |Window(s, offset, max)| > PageEnd(s, offset + max) - PageEnd(s, offset))
  {
    if offset + max < |s| {
      CharStartMonotone(s, offset, offset + max);
    }
  }

  /** Page k covers the stretch between two page ends; a narrow one repeats a character instead. */
  lemma PageSpan(s: Bytes, max: nat, k: nat)
    ensures var from, to := PageEnd(s, k * max), PageEnd(s, (k + 1) * max);
            && from <= to
            && (!Narrow(s, max, k) ==> Window(s, k * max, max) == s[from..to])
            && (Narrow(s, max, k) ==> |Window(s, k * max, max)| > to - from)
  {
    assert (k + 1) * max == k * max + max;
    WindowSpan(s, k * max, max);
  }

  /** Page k is exactly the stretch of s between its two ends. */
  ghost predicate Covers(s: Bytes, pages: seq<Bytes>, ends: seq<int>, k: nat)
    requires |ends| == |pages| + 1 && k < |pages|
  {
    0 <= ends[k] <= ends[k + 1] <= |s| && pages[k] == s[ends[k]..ends[k + 1]]
  }

  /** Page k is longer than the stretch between its two ends. */
  ghost predicate Overlaps(pages: seq<Bytes>, ends: seq<int>, k: nat)
    requires |ends| == |pages| + 1 && k < |pages|
  {
    |pages[k]| > ends[k + 1] - ends[k]
  }

  lemma {:induction false} AdjacentPages(s: Bytes, pages: seq<Bytes>, ends: seq<int>)
    requires |ends| == |pages| + 1 && pages != []
    requires forall k :: 0 <= k < |pages| ==> Covers(s, pages, ends, k)
    ensures 0 <= ends[0] <= ends[|pages|] <= |s|
    ensures Flatten(pages) == s[ends[0]..ends[|pages|]]
  {
    assert Covers(s, pages, ends, 0);
    if |pages| > 1 {
      forall k | 0 <= k < |pages| - 1 ensures Covers(s, pages[1..], ends[1..], k) {
        assert Covers(s, pages, ends, k + 1);
      }
      AdjacentPages(s, pages[1..], ends[1..]);
    } else {
      assert pages == [pages[0]];
    }
  }

  lemma {:induction false} OverlappingPages(s: Bytes, pages: seq<Bytes>, ends: seq<int>)
    requires |ends| == |pages| + 1
    requires forall k :: 0 <= k < |pages| ==> Covers(s, pages, ends, k) || Overlaps(pages, ends, k)
    ensures |Flatten(pages)| >= ends[|pages|] - ends[0]
    ensures (exists k :: 0 <= k < |pages| && Overlaps(pages, ends, k)) ==>
              |Flatten(pages)| > ends[|pages|] - ends[0]
  {
    if pages != [] {
      assert Covers(s, pages, ends, 0) || Overlaps(pages, ends, 0);
      forall k | 0 <= k < |pages| - 1
        ensures Covers(s, pages, ends, k + 1) ==> Covers(s, pages[1..], ends[1..], k)
        ensures Overlaps(pages, ends, k + 1) ==> Overlaps(pages[1..], ends[1..], k)
        ensures Covers(s, pages[1..], ends[1..], k) || Overlaps(pages[1..], ends[1..], k)
      {
        assert Covers(s, pages, ends, k + 1) || Overlaps(pages, ends, k + 1);
      }
      OverlappingPages(s, pages[1..], ends[1..]);
      if k :| 0 <= k < |pages| && Overlaps(pages, ends, k) {
        assert k > 0 ==> Overlaps(pages[1..], ends[1..], k - 1);
      }
    }
  }

  /** The pages of a section, followed to its end, join to that section exactly when no window
      was narrower than the character it fell in. */
  lemma TilesIff(s: Bytes, max: nat, n: nat)
    requires n > 0 && n * max >= |s|
    ensures Flatten(Pages(s, max, n)) == s <==> forall k :: 0 <= k < n ==> !Narrow(s, max, k)
  {
    var pages := Pages(s, max, n);
    var ends: seq<int> := seq(n + 1, (k: nat) => PageEnd(s, k * max));
    assert ends[0] == 0 && ends[n] == |s|;
    forall k | 0 <= k < n
      ensures Covers(s, pages, ends, k) || Overlaps(pages, ends, k)
      ensures Narrow(s, max, k) ==> Overlaps(pages, ends, k)
      ensures !Narrow(s, max, k) ==> Covers(s, pages, ends, k)
    {
      PageSpan(s, max, k);
    }
    OverlappingPages(s, pages, ends);
    if k :| 0 <= k < n && Narrow(s, max, k) {
      assert Overlaps(pages, ends, k);
    } else {
      AdjacentPages(s, pages, ends);
    }
  }

  lemma TilesWide(s: Bytes, max: nat, n: nat)
    requires Utf8.Valid(s) && max >= 4 && n > 0 && n * max >= |s|
    ensures Flatten(Pages(s, max, n)) == s
  {
    forall k | 0 <= k < n ensures !Narrow(s, max, k) { WideEnough(s, max, k); }
    TilesIff(s, max, n);
  }

  lemma PagesGrow(s: Bytes, max: nat, n: nat)
    ensures Flatten(Pages(s, max, n + 1)) == Flatten(Pages(s, max, n)) + PageAt(s, max, n)
  {
    OneMorePage(s, max, n);
    FlattenAppend(Pages(s, max, n), PageAt(s, max, n));
  }

  lemma OneMorePage(s: Bytes, max: nat, n: nat)
    ensures Pages(s, max, n + 1) == Pages(s, max, n) + [PageAt(s, max, n)]
  {
  }

  lemma NextPage(max: nat, n: nat)
    ensures (n + 1) * max == n * max + max
  {
  }

  /** Four bytes hold any character, so from there on no window is narrow. */
  lemma WideEnough(s: Bytes, max: nat, k: nat)
    requires Utf8.Valid(s) && max >= 4
    ensures !Narrow(s, max, k)
  {
    assert (k + 1) * max == k * max + max;
    if (k + 1) * max < |s| {
      CharStartBoundary(s, (k + 1) * max);
    }
  }

  /** Below four bytes some text is not reconstructed: a page offset can fall inside a
      four-byte character twice, and that character is then returned twice. */
  lemma TooNarrow(max: nat)
    requires 1 <= max <= 3
    ensures var s := [0xF0, 0x9F, 0x98, 0x80]; Utf8.Valid(s) && Flatten(Pages(s, max, 4)) != s
  {
    var s: Bytes := [0xF0, 0x9F, 0x98, 0x80];
    assert s[..4] == s;
    Utf8.CharIsFirst(s, 4);
    assert s[4..] == [];
    assert CharStart(s, max) == 0 by {
      assert CharStart(s, 1) == 0 && CharStart(s, 2) == CharStart(s, 1) && CharStart(s, 3) == CharStart(s, 2);
    }
    assert Narrow(s, max, 0);
    TilesIff(s, max, 4);
  }

  /** A validated request, windowed section by section with one shared offset. */
  class Pager {
    const offset: nat
    const maxBytes: nat
    var more: bool

    constructor (offset: nat, maxBytes: nat)
      ensures this.offset == offset && this.maxBytes == maxBytes && !more
    {
      this.offset, this.maxBytes, more := offset, maxBytes, false;
    }

    method Page(s: Bytes) returns (w: Bytes, size: nat)
      modifies this
      ensures w == Window(s, offset, maxBytes) && size == |s|
      ensures more == (old(more) || |s| > offset + maxBytes)
    {
      if |s| > offset + maxBytes {
        more := true;
      }
      w := WindowOf(s, offset, maxBytes);
      size := |s|;
    }

    /** Where the following page starts, or 0 when every section was returned to its end. */
    method NextOffset() returns (next: nat)
      ensures next == if more then offset + maxBytes else 0
    {
      if !more {
        return 0;
      }
      return offset + maxBytes;
    }
  }

  /** A reader that asks for several sections and follows next_offset until it is 0 ends, and
      gets back each section byte for byte, whatever their lengths. */
  method FollowNextOffset(sections: seq<Bytes>, max: nat) returns (texts: seq<Bytes>)
    requires max >= 4
    requires forall s :: s in sections ==> Utf8.Valid(s)
    ensures texts == sections
  {
    texts := seq(|sections|, i => []);
    var offset := 0;
    ghost var n := 0;
    var reading := true;
    while reading
      invariant offset == n * max
      invariant ReadSoFar(sections, texts, max, n)
      invariant !reading ==> n > 0 && forall i :: 0 <= i < |sections| ==> |sections[i]| <= offset
      decreases reading, Remaining(sections, offset)
    {
      var next;
      texts, next := OneRound(sections, texts, offset, max, n);
      n, offset, reading := n + 1, offset + max, next != 0;
    }
    AllRead(sections, texts, max, n);
  }

  /** One request of the reader, and what it leaves to read. */
  method OneRound(sections: seq<Bytes>, before: seq<Bytes>, offset: nat, max: nat, ghost n: nat)
    returns (texts: seq<Bytes>, next: nat)
    requires max > 0 && offset == n * max && ReadSoFar(sections, before, max, n)
    ensures ReadSoFar(sections, texts, max, n + 1) && offset + max == (n + 1) * max
    ensures next == 0 ==> forall i :: 0 <= i < |sections| ==> |sections[i]| <= offset + max
    ensures next != 0 ==> Remaining(sections, offset + max) < Remaining(sections, offset)
  {
    NextPage(max, n);
    texts, next := OneRequest(sections, before, offset, max);
    OnePageMore(sections, before, texts, max, n);
    RemainingShrinks(sections, offset, max);
  }

  lemma AllRead(sections: seq<Bytes>, texts: seq<Bytes>, max: nat, n: nat)
    requires max >= 4 && n > 0 && ReadSoFar(sections, texts, max, n)
    requires forall s :: s in sections ==> Utf8.Valid(s) && |s| <= n * max
    ensures texts == sections
  {
    forall i | 0 <= i < |sections| ensures texts[i] == sections[i] {
      assert sections[i] in sections;
      TilesWide(sections[i], max, n);
    }
  }

  /** The first n pages of every section have been read. */
  ghost predicate ReadSoFar(sections: seq<Bytes>, texts: seq<Bytes>, max: nat, n: nat) {
    |texts| == |sections| && forall i :: 0 <= i < |sections| ==> texts[i] == Flatten(Pages(sections[i], max, n))
  }

  lemma OnePageMore(sections: seq<Bytes>, before: seq<Bytes>, texts: seq<Bytes>, max: nat, n: nat)
    requires ReadSoFar(sections, before, max, n) && |texts| == |sections|
    requires forall i :: 0 <= i < |sections| ==> texts[i] == before[i] + Window(sections[i], n * max, max)
    ensures ReadSoFar(sections, texts, max, n + 1)
  {
    forall i | 0 <= i < |sections| ensures texts[i] == Flatten(Pages(sections[i], max, n + 1)) {
      PagesGrow(sections[i], max, n);
    }
  }

  /** One include_logs call: every section's page at one offset, appended to what was read. */
  method OneRequest(sections: seq<Bytes>, before: seq<Bytes>, offset: nat, max: nat)
    returns (texts: seq<Bytes>, next: nat)
    requires |before| == |sections| && max > 0
    ensures |texts| == |sections|
    ensures forall i :: 0 <= i < |sections| ==> texts[i] == before[i] + Window(sections[i], offset, max)
    ensures next == 0 <==> forall i :: 0 <= i < |sections| ==> |sections[i]| <= offset + max
    ensures next != 0 ==> next == offset + max
  {
    texts := before;
    var p := new Pager(offset, max);
    for i := 0 to |sections|
      invariant fresh(p) && p.offset == offset && p.maxBytes == max
      invariant |texts| == |sections|
      invariant forall j :: 0 <= j < i ==> texts[j] == before[j] + Window(sections[j], offset, max)
      invariant forall j :: i <= j < |sections| ==> texts[j] == before[j]
      invariant !p.more <==> forall j :: 0 <= j < i ==> |sections[j]| <= offset + max
    {
      var w, size := p.Page(sections[i]);
      texts := texts[i := texts[i] + w];
    }
    next := p.NextOffset();
  }

  /** Bytes not yet returned, over all sections. */
  ghost function Remaining(sections: seq<Bytes>, offset: nat): nat {
    if sections == [] then 0
    else (if |sections[0]| > offset then |sections[0]| - offset else 0) + Remaining(sections[1..], offset)
  }

  lemma {:induction false} RemainingShrinks(sections: seq<Bytes>, offset: nat, max: nat)
    requires max > 0
    ensures Remaining(sections, offset + max) <= Remaining(sections, offset)
    ensures (exists i :: 0 <= i < |sections| && |sections[i]| > offset) ==>
              Remaining(sections, offset + max) < Remaining(sections, offset)
  {
    if sections != [] {
      RemainingShrinks(sections[1..], offset, max);
      if exists i :: 0 <= i < |sections| && |sections[i]| > offset {
        var i :| 0 <= i < |sections| && |sections[i]| > offset;
        if i > 0 {
          assert |sections[1..][i - 1]| > offset;
        }
      }
    }
  }
}
