/** Head-and-tail capture of a process's output under a byte cap (internal/procexec). */
module BoundedBuffer {
  import opened Common

  /** The first half of the cap, filled from the front of the stream. */
  function HeadOf(stream: Bytes, limit: nat): Bytes { First(stream, limit / 2) }

  /** The second half of the cap: the newest bytes that are not in the head. */
  function TailOf(stream: Bytes, limit: nat): Bytes { Last(stream, limit / 2, limit - limit / 2) }

  function First(s: Bytes, half: nat): Bytes { s[..Min(|s|, half)] }

  /** The last bytes after the first half ones, keep at most. */
  function Last(s: Bytes, half: nat, keep: nat): Bytes { s[LastStart(|s|, half, keep)..] }

  function LastStart(n: nat, half: nat, keep: nat): (start: nat)
    ensures start <= n
  {
    if n <= half then n else if n - half <= keep then half else n - keep
  }

  function Digits(n: nat): (d: Bytes)
    ensures |d| > 0
  {
    if n < 10 then [48 + n] else Digits(n / 10) + [48 + n % 10]
  }

  /** The number a string of decimal digits stands for. */
  function Value(d: Bytes): int {
    if d == [] then 0 else 10 * Value(d[..|d| - 1]) + (d[|d| - 1] as int - 48)
  }

  /** Digits are decimal, read back as the number, and start with a zero only for zero. */
  lemma {:induction false} DigitsRead(n: nat)
    ensures Value(Digits(n)) == n
    ensures forall i :: 0 <= i < |Digits(n)| ==> 48 <= Digits(n)[i] <= 57
    ensures Digits(n)[0] == 48 ==> n == 0
  {
    if n >= 10 {
      DigitsRead(n / 10);
      var d := Digits(n);
      assert d[..|d| - 1] == Digits(n / 10);
    } else {
      assert Digits(n)[..0] == [];
    }
  }

  /** The note String puts between head and tail, in UTF-8. */
  function Note(dropped: nat): Bytes {
    var ellipsis: Bytes := [0xE2, 0x80, 0xA6];
    ellipsis
    + [91, 116, 114, 117, 110, 99, 97, 116, 101, 100, 32]   // "[truncated "
    + Digits(dropped)
    + [32, 98, 121, 116, 101, 115, 93]                      // " bytes]"
    + ellipsis
  }

  predicate Spells(bytes: Bytes, text: string) {
    |bytes| == |text| && forall i :: 0 <= i < |text| ==> bytes[i] == text[i] as int
  }

  /** The note's wording, between two ellipses (U+2026 in UTF-8). */
  lemma NoteIs(dropped: nat) returns (before: Bytes, after: Bytes)
    ensures Note(dropped) == [0xE2, 0x80, 0xA6] + before + Digits(dropped) + after + [0xE2, 0x80, 0xA6]
    ensures Spells(before, "[truncated ") && Spells(after, " bytes]")
  {
    before := [91, 116, 114, 117, 110, 99, 97, 116, 101, 100, 32];
    after := [32, 98, 121, 116, 101, 115, 93];
  }

  /** Head, dropped middle and tail tile the stream; head and tail never exceed the cap,
      and nothing is dropped exactly when the stream fits it. */
  lemma HeadTailTile(stream: Bytes, limit: nat)
    ensures |HeadOf(stream, limit)| + |TailOf(stream, limit)| == Min(|stream|, limit)
    ensures |stream| <= limit ==> HeadOf(stream, limit) + TailOf(stream, limit) == stream
    ensures |stream| > limit ==>
      stream == HeadOf(stream, limit)
                + stream[limit / 2..|stream| - (limit - limit / 2)]
                + TailOf(stream, limit)
  {
  }

  /** The newest bytes of a tail, as many as are kept. */
  function Newest(tail: Bytes, keep: nat): Bytes {
    if |tail| > keep then tail[|tail| - keep..] else tail
  }

  /** A write the head has room for: */
  lemma HeadTakesAll(s: Bytes, p: Bytes, half: nat, keep: nat)
    requires |s| + |p| <= half
    ensures First(s + p, half) == First(s, half) + p && Last(s + p, half, keep) == Last(s, half, keep) == []
  {
    assert First(s, half) == s && First(s + p, half) == s + p;
  }

  /** one it has some room for: */
  lemma HeadTakesSome(s: Bytes, p: Bytes, half: nat, keep: nat)
    requires |s| < half < |s| + |p|
    ensures First(s + p, half) == First(s, half) + p[..half - |s|] && Last(s, half, keep) == []
    ensures Last(s + p, half, keep) == Newest(p[half - |s|..], keep)
  {
    assert First(s, half) == s && (s + p)[..half] == s + p[..half - |s|];
  }

  /** and one after it is full, whose bytes push the oldest out of the tail. */
  lemma TailTakesAll(s: Bytes, p: Bytes, half: nat, keep: nat)
    requires half <= |s|
    ensures First(s + p, half) == First(s, half) && Last(s + p, half, keep) == Newest(Last(s, half, keep) + p, keep)
  {
    assert (s + p)[..half] == s[..half];
    var start := LastStart(|s|, half, keep);
    SuffixThen(s, start, p);
  }

  lemma SuffixThen(s: Bytes, from: nat, p: Bytes)
    requires from <= |s|
    ensures s[from..] + p == (s + p)[from..]
  {
  }

  class Buffer {
    var head: Bytes
    var tail: Bytes
    const limit: nat
    var total: nat
    ghost var stream: Bytes  // everything written so far

    ghost predicate Valid()
      reads this
    {
      && head == HeadOf(stream, limit)
      && tail == TailOf(stream, limit)
      && total == |stream|
    }

    constructor (limit: nat)
      ensures Valid() && this.limit == limit && stream == []
    {
      this.limit := limit;
      head, tail, total, stream := [], [], 0, [];
    }

    method Write(p: Bytes) returns (written: nat)
      requires Valid()
      modifies this
      ensures Valid() && stream == old(stream) + p
      ensures written == |p|
    {
      ghost var was, half, keep := stream, limit / 2, limit - limit / 2;
      written := |p|;
      total := total + written;
      stream := stream + p;
      var rest := p;
      var room := limit / 2 - |head|;
      if room > 0 {
        if written <= room {
          HeadTakesAll(was, p, half, keep);
          head := head + p;
          return;
        }
        HeadTakesSome(was, p, half, keep);
        head := head + p[..room];
        rest := p[room..];
      } else {
        TailTakesAll(was, p, half, keep);
      }
      tail := tail + rest;
      var overflow := |tail| - (limit - limit / 2);
      if overflow > 0 {
        tail := tail[overflow..];
      }
    }

    method String() returns (s: Bytes)
      requires Valid()
      ensures |stream| <= limit ==> s == stream
      ensures |stream| > limit ==>
        s == stream[..limit / 2] + Note(|stream| - limit) + stream[|stream| - (limit - limit / 2)..]
    {
      HeadTailTile(stream, limit);
      var dropped := total - |head| - |tail|;
      if dropped <= 0 {
        return head + tail;
      }
      return head + Note(dropped) + tail;
    }

    method Truncated() returns (cut: bool)
      requires Valid()
      ensures cut <==> |stream| > limit
    {
      HeadTailTile(stream, limit);
      return total > |head| + |tail|;
    }
  }

  /** However a process splits its output into writes, the capture shows the same bytes:
      a function of the concatenation alone. */
  method Capture(writes: seq<Bytes>, limit: nat) returns (shown: Bytes, cut: bool)
    ensures
      var stream := Flatten(writes);
      shown == if |stream| <= limit then stream
               else stream[..limit / 2] + Note(|stream| - limit) + stream[|stream| - (limit - limit / 2)..]
    ensures cut <==> |Flatten(writes)| > limit
  {
    var b := new Buffer(limit);
    for i := 0 to |writes|
      invariant b.Valid() && b.limit == limit && fresh(b)
      invariant b.stream == Flatten(writes[..i])
    {
      FlattenNext(writes, i);
      var n := b.Write(writes[i]);
    }
    assert writes[..|writes|] == writes;
    shown := b.String();
    cut := b.Truncated();
  }
}
