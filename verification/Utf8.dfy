/** Well-formed UTF-8 (section 4 of RFC 3629) and where its characters start. */
module Utf8 {
  import opened Common

  predicate Tail(b: Byte) {
    0x80 <= b <= 0xBF
  }

  /** utf8.RuneStart: b is not a continuation byte. */
  predicate RuneStart(b: Byte) {
    !Tail(b)
  }

  /** c is the encoding of one character. */
  predicate IsChar(c: Bytes) {
    if |c| == 1 then c[0] <= 0x7F
    else if |c| == 2 then 0xC2 <= c[0] <= 0xDF && Tail(c[1])
    else if |c| == 3 then
      && Tail(c[1]) && Tail(c[2])
      && (|| (c[0] == 0xE0 && 0xA0 <= c[1])
          || 0xE1 <= c[0] <= 0xEC
          || (c[0] == 0xED && c[1] <= 0x9F)
          || 0xEE <= c[0] <= 0xEF)
    else if |c| == 4 then
      && Tail(c[1]) && Tail(c[2]) && Tail(c[3])
      && (|| (c[0] == 0xF0 && 0x90 <= c[1])
          || 0xF1 <= c[0] <= 0xF3
          || (c[0] == 0xF4 && c[1] <= 0x8F))
    else false
  }

  /** The code points that have an encoding: all but the surrogates. */
  predicate Scalar(u: int) { 0 <= u < 0xD800 || 0xE000 <= u < 0x11_0000 }

  /** Section 3 of RFC 3629: six bits to each continuation byte. */
  function Encode(u: nat): Bytes
    requires Scalar(u)
  {
    if u < 0x80 then [u]
    else if u < 0x800 then [0xC0 + u / 0x40, 0x80 + u % 0x40]
    else if u < 0x1_0000 then [0xE0 + u / 0x1000, 0x80 + u / 0x40 % 0x40, 0x80 + u % 0x40]
    else [0xF0 + u / 0x4_0000, 0x80 + u / 0x1000 % 0x40, 0x80 + u / 0x40 % 0x40, 0x80 + u % 0x40]
  }

  function Decode(c: Bytes): int
    requires IsChar(c)
  {
    if |c| == 1 then c[0] as int
    else if |c| == 2 then (c[0] as int - 0xC0) * 0x40 + (c[1] as int - 0x80)
    else if |c| == 3 then (c[0] as int - 0xE0) * 0x1000 + (c[1] as int - 0x80) * 0x40 + (c[2] as int - 0x80)
    else (c[0] as int - 0xF0) * 0x4_0000 + (c[1] as int - 0x80) * 0x1000 + (c[2] as int - 0x80) * 0x40 + (c[3] as int - 0x80)
  }

  lemma Encodes(u: nat)
    requires Scalar(u)
    ensures IsChar(Encode(u))
  {
  }

  lemma Decodes(c: Bytes)
    requires IsChar(c)
    ensures Scalar(Decode(c)) && Encode(Decode(c)) == c
  {
    if |c| == 2 {
      Digits2(c[0] - 0xC0, c[1] - 0x80);
    } else if |c| == 3 {
      Digits3(c[0] - 0xE0, c[1] - 0x80, c[2] - 0x80);
    } else if |c| == 4 {
      Digits4(c[0] - 0xF0, c[1] - 0x80, c[2] - 0x80, c[3] - 0x80);
    }
  }

  lemma Digits2(a: nat, b: nat)
    requires b < 0x40
    ensures (a * 0x40 + b) / 0x40 == a && (a * 0x40 + b) % 0x40 == b
  {
  }

  lemma Digits3(a: nat, b: nat, c: nat)
    requires b < 0x40 && c < 0x40
    ensures var u := a * 0x1000 + b * 0x40 + c; u / 0x1000 == a && u / 0x40 % 0x40 == b && u % 0x40 == c
  {
    Digits2(a * 0x40 + b, c);
    Digits2(a, b);
  }

  lemma Digits4(a: nat, b: nat, c: nat, d: nat)
    requires b < 0x40 && c < 0x40 && d < 0x40
    ensures
      var u := a * 0x4_0000 + b * 0x1000 + c * 0x40 + d;
      u / 0x4_0000 == a && u / 0x1000 % 0x40 == b && u / 0x40 % 0x40 == c && u % 0x40 == d
  {
    Digits3(a * 0x40 + b, c, d);
    Digits2(a, b);
  }

  /** The byte sequences of section 4 of RFC 3629 are exactly the encodings of section 3. */
  lemma CharIff(c: Bytes)
    ensures IsChar(c) <==> exists u: nat :: Scalar(u) && c == Encode(u)
  {
    if IsChar(c) {
      Decodes(c);
    }
    forall u: nat | Scalar(u) && c == Encode(u) ensures IsChar(c) {
      Encodes(u);
    }
  }

  /** Where no character starts, one byte is taken. */
  lemma MalformedIsOne(s: Bytes)
    requires s != [] && forall n :: 1 <= n <= |s| ==> !IsChar(s[..n])
    ensures DecodeSize(s) == 1
  {
  }

  /** The number of bytes of the character s starts with; one byte when s is malformed,
      as utf8.DecodeRuneInString reports it. */
  function DecodeSize(s: Bytes): (n: nat)
    requires s != []
    ensures 1 <= n <= Min(4, |s|)
  {
    if IsChar(s[..1]) then 1
    else if |s| >= 2 && IsChar(s[..2]) then 2
    else if |s| >= 3 && IsChar(s[..3]) then 3
    else if |s| >= 4 && IsChar(s[..4]) then 4
    else 1
  }

  /** s is a sequence of whole characters. */
  predicate Valid(s: Bytes) {
    s == [] || (IsChar(s[..DecodeSize(s)]) && Valid(s[DecodeSize(s)..]))
  }

  /** No character of s straddles position i. */
  predicate Boundary(s: Bytes, i: int) {
    0 <= i <= |s| && (i == |s| || RuneStart(s[i]))
  }

  /** In valid text every position has a character start at most three bytes before it. */
  lemma {:induction false} BoundaryNear(s: Bytes, i: nat)
    requires Valid(s) && i < |s|
    ensures exists j :: i - 3 <= j <= i && Boundary(s, j)
  {
    var n := DecodeSize(s);
    if i < n {
      assert Boundary(s, 0);
    } else {
      BoundaryNear(s[n..], i - n);
      var j :| i - n - 3 <= j <= i - n && Boundary(s[n..], j);
      assert Boundary(s, j + n);
    }
  }

  lemma InsideIsTail(s: Bytes, n: nat, k: nat)
    requires 0 < k < n <= |s| && IsChar(s[..n])
    ensures !RuneStart(s[k])
  {
    assert s[..n][k] == s[k];
  }

  /** A first character and valid text after it. */
  lemma CharThenValid(s: Bytes, n: nat, i: nat)
    requires n <= i <= |s| && IsChar(s[..n]) && Valid(s[n..i])
    ensures Valid(s[..i])
  {
    var t := s[..i];
    assert t[..n] == s[..n] && t[n..] == s[n..i];
    CharIsFirst(t, n);
  }

  /** Cutting valid text at a boundary leaves valid text on both sides. */
  lemma {:induction false} CutAtBoundary(s: Bytes, i: nat)
    requires Valid(s) && Boundary(s, i)
    ensures Valid(s[..i]) && Valid(s[i..])
  {
    if i == 0 {
      assert s[i..] == s;
    } else {
      var n := DecodeSize(s);
      if i < n {
        InsideIsTail(s, n, i);
      }
      CutAtBoundary(s[n..], i - n);
      Slices(s, n, i);
      CharThenValid(s, n, i);
    }
  }

  lemma Slices(s: Bytes, n: nat, i: nat)
    requires n <= i <= |s|
    ensures s[n..][i - n..] == s[i..] && s[n..][..i - n] == s[n..i]
  {
  }

  /** The encoding is prefix-free: a character at the front is the one DecodeSize measures. */
  lemma CharIsFirst(s: Bytes, n: nat)
    requires n <= |s| && IsChar(s[..n])
    ensures s != [] && DecodeSize(s) == n
  {
    assert 1 <= n <= 4;
    assert s[..n][0] == s[0];
    assert s[..1][0] == s[0];
  }

  /** A character that starts at i ends at a boundary. */
  lemma CharEndsAtBoundary(s: Bytes, i: nat)
    requires Valid(s) && Boundary(s, i) && i < |s|
    ensures Boundary(s, i + DecodeSize(s[i..]))
    ensures IsChar(s[i..][..DecodeSize(s[i..])])
  {
    CutAtBoundary(s, i);
    var t, n := s[i..], DecodeSize(s[i..]);
    if n < |t| {
      assert Valid(t[n..]);
      var m := DecodeSize(t[n..]);
      assert IsChar(t[n..][..m]);
      assert t[n..][..m][0] == s[i + n];
    }
  }
}
