/** The incremental line scanner behind a streaming agent's stdout
    (internal/agent/opencode_events.go). */
module EventScanner {
  import opened Common

  const NEWLINE: Byte := 10

  /** Real event lines are far shorter; a line past this bound is dropped whole. */
  const MAX_EVENT_LINE: nat := 0x10_0000

  /** A stream cut at its newlines: the terminated lines, then what follows the last newline. */
  datatype Cut = Cut(lines: seq<Bytes>, rest: Bytes)

  function Lines(stream: Bytes): (c: Cut)
  {
    if stream == [] then Cut([], [])
    else
      var c := Lines(stream[..|stream| - 1]);
      var last := stream[|stream| - 1];
      if last == NEWLINE then Cut(c.lines + [c.rest], []) else Cut(c.lines, c.rest + [last])
  }

  /** Putting the newlines back gives the stream: no byte is lost or invented by the cut,
      and no piece holds a newline. */
  lemma {:induction false} LinesTile(stream: Bytes)
    ensures Flatten(seq(|Lines(stream).lines|, i requires 0 <= i < |Lines(stream).lines| =>
                      Lines(stream).lines[i] + [NEWLINE])) + Lines(stream).rest == stream
    ensures NEWLINE !in Lines(stream).rest
    ensures forall l :: l in Lines(stream).lines ==> NEWLINE !in l
  {
    if stream != [] {
      var front := stream[..|stream| - 1];
      LinesTile(front);
      var c := Lines(front);
      var before := seq(|c.lines|, i requires 0 <= i < |c.lines| => c.lines[i] + [NEWLINE]);
      var after := seq(|Lines(stream).lines|, i requires 0 <= i < |Lines(stream).lines| =>
                         Lines(stream).lines[i] + [NEWLINE]);
      if stream[|stream| - 1] == NEWLINE {
        assert after == before + [c.rest + [NEWLINE]];
        FlattenAppend(before, c.rest + [NEWLINE]);
        assert Flatten(before) + (c.rest + [NEWLINE]) == (Flatten(before) + c.rest) + [NEWLINE];
      } else {
        assert after == before;
        assert Flatten(before) + (c.rest + [stream[|stream| - 1]])
            == (Flatten(before) + c.rest) + [stream[|stream| - 1]];
      }
    }
  }

  lemma {:induction false} LinesExtend(stream: Bytes, more: Bytes)
    requires NEWLINE !in more
    ensures Lines(stream + more) == Cut(Lines(stream).lines, Lines(stream).rest + more)
  {
    if more == [] {
      assert stream + more == stream;
    } else {
      var front := more[..|more| - 1];
      LinesExtend(stream, front);
      LinesStep(stream + front, more[|more| - 1]);
      LastApart(stream, more);
      LastApart(Lines(stream).rest, more);
    }
  }

  lemma LastApart(a: Bytes, b: Bytes)
    requires b != []
    ensures a + b == a + b[..|b| - 1] + [b[|b| - 1]]
  {
  }

  lemma LinesStep(stream: Bytes, b: Byte)
    requires b != NEWLINE
    ensures Lines(stream + [b]) == Cut(Lines(stream).lines, Lines(stream).rest + [b])
  {
    assert (stream + [b])[..|stream|] == stream;
  }

  lemma LinesTerminate(stream: Bytes, more: Bytes)
    requires NEWLINE !in more
    ensures Lines(stream + more + [NEWLINE])
         == Cut(Lines(stream).lines + [Lines(stream).rest + more], [])
  {
    LinesExtend(stream, more);
    assert (stream + more + [NEWLINE])[..|stream + more|] == stream + more;
  }

  /** The lines short enough to be parsed, in order. */
  function Kept(lines: seq<Bytes>): seq<Bytes> {
    Filter(lines, (l: Bytes) => |l| <= MAX_EVENT_LINE)
  }

  /** How many lines are longer than the bound. */
  function Oversized(lines: seq<Bytes>): nat {
    if lines == [] then 0
    else Oversized(lines[..|lines| - 1]) + (if |lines[|lines| - 1]| > MAX_EVENT_LINE then 1 else 0)
  }

  /** Every line of a finished stream; an empty remainder is not a line. */
  function AllLines(stream: Bytes): seq<Bytes> {
    Lines(stream).lines + (if Lines(stream).rest == [] then [] else [Lines(stream).rest])
  }

  /** The lines of a finished stream are what lies between its newlines (byte 10): none of them holds
      one, and putting them back gives the stream, with a newline after the last line if it had none. */
  lemma AllLinesAre(stream: Bytes)
    ensures
      var lines := AllLines(stream);
      && (forall l :: l in lines ==> 10 !in l)
      && Flatten(seq(|lines|, i requires 0 <= i < |lines| => lines[i] + [10]))
         == if stream == [] || stream[|stream| - 1] == 10 then stream else stream + [10]
  {
    LinesTile(stream);
    EndsAtNewline(stream);
    var c := Lines(stream);
    var whole := seq(|c.lines|, i requires 0 <= i < |c.lines| => c.lines[i] + [10]);
    var lines := AllLines(stream);
    if c.rest == [] {
      assert lines == c.lines;
      assert seq(|lines|, i requires 0 <= i < |lines| => lines[i] + [10]) == whole;
      assert Flatten(whole) + [] == Flatten(whole);
    } else {
      assert seq(|lines|, i requires 0 <= i < |lines| => lines[i] + [10]) == whole + [c.rest + [10]];
      FlattenAppend(whole, c.rest + [10]);
      Reassociate(Flatten(whole), c.rest, [10]);
    }
  }

  lemma EndsAtNewline(stream: Bytes)
    ensures Lines(stream).rest == [] <==> stream == [] || stream[|stream| - 1] == 10
  {
  }

  /** A line of more than a mebibyte is counted, and any other kept. */
  lemma {:induction false} KeptOrCounted(lines: seq<Bytes>, l: Bytes)
    ensures multiset(Kept(lines))[l] == if |l| <= 1048576 then multiset(lines)[l] else 0
    ensures |Kept(lines)| + Oversized(lines) == |lines|
  {
    if lines != [] {
      var n := |lines| - 1;
      assert lines == lines[..n] + [lines[n]];
      KeptOrCounted(lines[..n], l);
    }
  }

  lemma KeptAppend(lines: seq<Bytes>, l: Bytes)
    ensures Kept(lines + [l]) == Kept(lines) + (if |l| <= MAX_EVENT_LINE then [l] else [])
    ensures Oversized(lines + [l]) == Oversized(lines) + (if |l| > MAX_EVENT_LINE then 1 else 0)
  {
    assert (lines + [l])[..|lines|] == lines;
  }

  /** The scanner's whole state is a function of the bytes seen, not of how they were chunked. */
  ghost predicate Tracks(stream: Bytes, buf: Bytes, skipping: bool, consumed: seq<Bytes>, oversized: nat) {
    var c := Lines(stream);
    && consumed == Kept(c.lines)
    && skipping == (|c.rest| > MAX_EVENT_LINE)
    && buf == (if skipping then [] else c.rest)
    && oversized == Oversized(c.lines) + (if skipping then 1 else 0)
  }

  /** A piece without a newline: it joins the partial line, unless that line is or becomes too long. */
  lemma PartialLine(stream: Bytes, buf: Bytes, skipping: bool, consumed: seq<Bytes>, oversized: nat, piece: Bytes)
    requires Tracks(stream, buf, skipping, consumed, oversized)
    requires NEWLINE !in piece
    ensures skipping ==> Tracks(stream + piece, [], true, consumed, oversized)
    ensures !skipping && |buf| + |piece| > MAX_EVENT_LINE ==>
              Tracks(stream + piece, [], true, consumed, oversized + 1)
    ensures !skipping && |buf| + |piece| <= MAX_EVENT_LINE ==>
              Tracks(stream + piece, buf + piece, false, consumed, oversized)
  {
    LinesExtend(stream, piece);
  }

  /** A piece ended by a newline: the line it completes is consumed, counted, or already counted. */
  lemma WholeLine(stream: Bytes, buf: Bytes, skipping: bool, consumed: seq<Bytes>, oversized: nat, piece: Bytes)
    requires Tracks(stream, buf, skipping, consumed, oversized)
    requires NEWLINE !in piece
    ensures var next := stream + piece + [NEWLINE];
            && (skipping ==> Tracks(next, [], false, consumed, oversized))
            && (!skipping && |buf| + |piece| > MAX_EVENT_LINE ==> Tracks(next, [], false, consumed, oversized + 1))
            && (!skipping && |buf| + |piece| <= MAX_EVENT_LINE ==>
                  Tracks(next, [], false, consumed + [buf + piece], oversized))
  {
    LinesTerminate(stream, piece);
    KeptAppend(Lines(stream).lines, Lines(stream).rest + piece);
  }

  class Scanner {
    var buf: Bytes
    var skipping: bool
    var consumed: seq<Bytes>     // the lines handed to the parser, in order
    var oversizedLines: nat
    ghost var stream: Bytes      // everything written so far

    ghost predicate Valid()
      reads this
    {
      Tracks(stream, buf, skipping, consumed, oversizedLines)
    }

    constructor ()
      ensures Valid() && stream == []
    {
      buf, skipping, consumed, oversizedLines, stream := [], false, [], 0, [];
    }

    method DropLine()
      modifies this
      ensures buf == [] && oversizedLines == old(oversizedLines) + 1
      ensures unchanged(this`skipping) && unchanged(this`consumed) && unchanged(this`stream)
    {
      buf := [];
      oversizedLines := oversizedLines + 1;
    }

    method Write(chunk: Bytes) returns (n: nat)
      requires Valid()
      modifies this
      ensures Valid() && stream == old(stream) + chunk
      ensures |buf| <= MAX_EVENT_LINE
      ensures n == |chunk|
    {
      n := |chunk|;
      var p := chunk;
      while p != []
        invariant Valid()
        invariant stream + p == old(stream) + chunk
        decreases |p|
      {
        var end := IndexOfNewline(p);
        if end < 0 {
          TakePartial(p);
          return;
        }
        CutAtNewline(stream, p, end);
        TakeLine(p[..end]);
        p := p[end + 1..];
      }
    }

    /** What is left of a chunk after its last newline. */
    method TakePartial(piece: Bytes)
      requires Valid() && NEWLINE !in piece
      modifies this
      ensures Valid() && stream == old(stream) + piece
    {
      PartialLine(stream, buf, skipping, consumed, oversizedLines, piece);
      stream := stream + piece;
      if skipping {
        return;
      }
      if |buf| + |piece| > MAX_EVENT_LINE {
        DropLine();
        skipping := true;
        return;
      }
      buf := buf + piece;
    }

    /** A piece that a newline ends. */
    method TakeLine(piece: Bytes)
      requires Valid() && NEWLINE !in piece
      modifies this
      ensures Valid() && stream == old(stream) + piece + [NEWLINE]
    {
      WholeLine(stream, buf, skipping, consumed, oversizedLines, piece);
      stream := stream + piece + [NEWLINE];
      if skipping {
        skipping := false;
      } else if |buf| + |piece| > MAX_EVENT_LINE {
        DropLine();
      } else {
        consumed := consumed + [buf + piece];
        buf := [];
      }
    }

    /** The trailing line of a process killed in mid-write counts as a line;
        the tail of a dropped one does not. */
    method Close()
      requires Valid()
      modifies this
      ensures consumed == Kept(AllLines(stream))
      ensures oversizedLines == Oversized(AllLines(stream))
      ensures buf == [] && !skipping && unchanged(this`stream)
    {
      KeptAppend(Lines(stream).lines, Lines(stream).rest);
      assert Lines(stream).lines + [] == Lines(stream).lines;
      if |buf| > 0 && !skipping {
        consumed := consumed + [buf];
      }
      buf := [];
      skipping := false;
    }
  }

  lemma CutAtNewline(stream: Bytes, p: Bytes, end: nat)
    requires end < |p| && p[end] == NEWLINE
    ensures stream + p[..end] + [NEWLINE] + p[end + 1..] == stream + p
  {
    assert p == p[..end] + [NEWLINE] + p[end + 1..];
  }

  method IndexOfNewline(p: Bytes) returns (end: int)
    ensures -1 <= end < |p|
    ensures end < 0 ==> NEWLINE !in p
    ensures end >= 0 ==> p[end] == NEWLINE && NEWLINE !in p[..end]
  {
    for i := 0 to |p|
      invariant NEWLINE !in p[..i]
    {
      if p[i] == NEWLINE {
        return i;
      }
    }
    return -1;
  }

  /** Chunking independence: whatever writes a stream arrives in, the scanner consumes exactly
      its lines of at most MAX_EVENT_LINE bytes, in order, and counts exactly the longer ones. */
  method ScanAll(writes: seq<Bytes>) returns (consumed: seq<Bytes>, oversized: nat)
    ensures consumed == Kept(AllLines(Flatten(writes)))
    ensures oversized == Oversized(AllLines(Flatten(writes)))
  {
    var s := new Scanner();
    for i := 0 to |writes|
      invariant s.Valid() && fresh(s)
      invariant s.stream == Flatten(writes[..i])
    {
      FlattenNext(writes, i);
      var n := s.Write(writes[i]);
    }
    assert writes[..|writes|] == writes;
    s.Close();
    consumed, oversized := s.consumed, s.oversizedLines;
  }
}
