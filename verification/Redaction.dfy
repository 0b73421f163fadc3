/** Hiding passwords in keyword/value connection strings (internal/config/redact.go). */
module Redaction {
  import opened Common

  const EQUALS: Byte := 61
  const QUOTE: Byte := 39
  const BACKSLASH: Byte := 92
  const STARS: Bytes := [42, 42, 42]

  predicate IsKVSpace(c: Byte) {
    c == 32 || 9 <= c <= 13
  }

  /** The key with its letters folded to lower case, as strings.EqualFold compares it with an
      ASCII word that has no k: besides A-Z, only U+017F folds to such a letter, to s. */
  function Fold(key: Bytes): Bytes {
    if key == [] then []
    else if |key| >= 2 && key[0] == 0xC5 && key[1] == 0xBF then [115] + Fold(key[2..])
    else [if 65 <= key[0] <= 90 then key[0] + 32 else key[0]] + Fold(key[1..])
  }

  const PASSWORD: Bytes := [112, 97, 115, 115, 119, 111, 114, 100]
  const SSL_PASSWORD: Bytes := [115, 115, 108] + PASSWORD

  predicate IsSecretKey(key: Bytes) {
    Fold(key) == PASSWORD || Fold(key) == SSL_PASSWORD
  }

  /** key is word in ASCII letters of either case; word is in lower case. */
  predicate SameButCase(key: Bytes, word: string) {
    |key| == |word| && forall i :: 0 <= i < |key| ==> key[i] == word[i] as int || (65 <= key[i] <= 90 && key[i] + 32 == word[i] as int)
  }

  /** The keys that are secret: password and sslpassword, in any case. */
  lemma SecretKeysAre(key: Bytes)
    requires 0xC5 !in key
    ensures IsSecretKey(key) <==> SameButCase(key, "password") || SameButCase(key, "sslpassword")
  {
    FoldIs(key);
    WordIs(Fold(key), PASSWORD, "password");
    WordIs(Fold(key), SSL_PASSWORD, "sslpassword");
  }

  lemma WordIs(folded: Bytes, bytes: Bytes, word: string)
    requires |bytes| == |word| && forall i :: 0 <= i < |word| ==> bytes[i] == word[i] as int
    ensures folded == bytes <==> |folded| == |word| && forall i :: 0 <= i < |word| ==> folded[i] == word[i] as int
  {
  }

  lemma {:induction false} FoldIs(key: Bytes)
    requires 0xC5 !in key
    ensures |Fold(key)| == |key|
    ensures forall i :: 0 <= i < |key| ==> Fold(key)[i] == if 65 <= key[i] <= 90 then key[i] + 32 else key[i]
  {
    if key != [] {
      FoldIs(key[1..]);
    }
  }

  /** U+017F, in UTF-8, is taken for an s wherever it stands. */
  lemma {:induction false} LongSIsAnS(a: Bytes, b: Bytes)
    requires 0xC5 !in a
    ensures Fold(a + [0xC5, 0xBF] + b) == Fold(a + [115] + b)
    ensures IsSecretKey(a + [0xC5, 0xBF] + b) <==> IsSecretKey(a + [115] + b)
  {
    var s, t := a + [0xC5, 0xBF] + b, a + [115] + b;
    if a == [] {
      assert s[2..] == b && t[1..] == b;
    } else {
      LongSIsAnS(a[1..], b);
      assert s[1..] == a[1..] + [0xC5, 0xBF] + b && t[1..] == a[1..] + [115] + b;
      assert s[0] == t[0] == a[0] != 0xC5;
    }
  }

  /** No other byte 0xC5 is in a secret key. */
  lemma {:induction false} NoOtherIsSecret(key: Bytes, i: nat)
    requires i < |key| && key[i] == 0xC5 && (i + 1 == |key| || key[i + 1] != 0xBF)
    ensures 0xC5 in Fold(key) && !IsSecretKey(key)
    decreases |key|
  {
    if i > 0 {
      if |key| >= 2 && key[0] == 0xC5 && key[1] == 0xBF {
        NoOtherIsSecret(key[2..], i - 2);
      } else {
        NoOtherIsSecret(key[1..], i - 1);
      }
    }
  }

  function SkipSpaces(s: Bytes, i: nat): (j: nat)
    requires i <= |s|
    ensures i <= j <= |s|
    decreases |s| - i
  {
    if i < |s| && IsKVSpace(s[i]) then SkipSpaces(s, i + 1) else i
  }

  function KeyEnd(s: Bytes, i: nat): (j: nat)
    requires i <= |s|
    ensures i <= j <= |s|
    decreases |s| - i
  {
    if i < |s| && s[i] != EQUALS && !IsKVSpace(s[i]) then KeyEnd(s, i + 1) else i
  }

  /** Where a value ends, and whether it ended before a quote was left open. */
  datatype End = End(at: nat, closed: bool)

  /** A quoted value runs to its closing quote, an unquoted one to the next space; in both a
      backslash escapes the byte after it. */
  function ValueEnd(s: Bytes, p: nat, quoted: bool): (e: End)
    ensures p <= |s| ==> p <= e.at
    ensures e.at <= |s|
    ensures !e.closed ==> e.at == |s|
    decreases |s| - p
  {
    if p >= |s| then End(|s|, !quoted)
    else if s[p] == BACKSLASH then ValueEnd(s, p + 2, quoted)
    else if quoted && s[p] == QUOTE then End(p + 1, true)
    else if !quoted && IsKVSpace(s[p]) then End(p, true)
    else ValueEnd(s, p + 1, quoted)
  }

  function ScanValue(s: Bytes, v: nat): (e: End)
    requires v <= |s|
    ensures v <= e.at <= |s|
    ensures !e.closed ==> e.at == |s|
  {
    var quoted := v < |s| && s[v] == QUOTE;
    ValueEnd(s, if quoted then v + 1 else v, quoted)
  }

  method ScanKVValue(s: Bytes, v: nat) returns (end: nat, closed: bool)
    requires v <= |s|
    ensures End(end, closed) == ScanValue(s, v)
  {
    var n := |s|;
    var quoted := v < n && s[v] == QUOTE;
    var p := v;
    if quoted {
      p := p + 1;
    }
    while p < n
      invariant ScanValue(s, v) == ValueEnd(s, p, quoted)
      decreases n - p
    {
      if s[p] == BACKSLASH {
        p := p + 2;
        continue;
      } else if quoted && s[p] == QUOTE {
        return p + 1, true;
      } else if !quoted && IsKVSpace(s[p]) {
        return p, true;
      }
      p := p + 1;
    }
    if p > n {
      p := n;
    }
    return p, !quoted;
  }

  method ScanKey(s: Bytes, i: nat) returns (j: nat)
    requires i <= |s|
    ensures j == KeyEnd(s, i)
  {
    j := i;
    while j < |s| && s[j] != EQUALS && !IsKVSpace(s[j])
      invariant i <= j <= |s| && KeyEnd(s, j) == KeyEnd(s, i)
    {
      j := j + 1;
    }
  }

  method ScanSpaces(s: Bytes, i: nat) returns (j: nat)
    requires i <= |s|
    ensures j == SkipSpaces(s, i)
  {
    j := i;
    while j < |s| && IsKVSpace(s[j])
      invariant i <= j <= |s| && SkipSpaces(s, j) == SkipSpaces(s, i)
    {
      j := j + 1;
    }
  }

  // ---------- segments ----------

  /** One piece of a connection string. */
  datatype Segment =
    | Space(b: Byte)
    | Word(text: Bytes)                                   // no '=' follows
    | Setting(key: Bytes, head: Bytes, value: Bytes)      // head runs up to the value
  {
    predicate Secret() { Setting? && IsSecretKey(key) }

    function Text(): Bytes {
      match this
      case Space(b) => [b]
      case Word(text) => text
      case Setting(_, head, value) => head + value
    }

    /** What is printed of the segment. */
    function Shown(): Bytes {
      if Secret() then head + STARS else Text()
    }
  }

  /** Where the parts of the segment starting at some index lie. */
  datatype Extent =
    | Blank(end: nat)
    | Bare(end: nat)
    | Assignment(keyEnd: nat, value: nat, end: nat, closed: bool)
  {
    function Shift(d: nat): Extent {
      match this
      case Blank(e) => Blank(d + e)
      case Bare(e) => Bare(d + e)
      case Assignment(k, v, e, c) => Assignment(d + k, d + v, d + e, c)
    }
  }

  function ExtentAt(s: Bytes, i: nat): (x: Extent)
    requires i < |s|
    ensures i < x.end <= |s|
    ensures x.Assignment? ==> i <= x.keyEnd < x.value <= x.end
    ensures x.Assignment? && !x.closed ==> x.end == |s|
  {
    if IsKVSpace(s[i]) then Blank(i + 1)
    else
      var j := KeyEnd(s, i);
      var eq := SkipSpaces(s, j);
      if eq >= |s| || s[eq] != EQUALS then Bare(eq)
      else
        var v := SkipSpaces(s, eq + 1);
        var e := ScanValue(s, v);
        Assignment(j, v, e.at, e.closed)
  }

  /** The segment that starts at i. */
  function SegmentAt(s: Bytes, i: nat): (x: Segment)
    requires i < |s|
  {
    match ExtentAt(s, i)
    case Blank(_) => Space(s[i])
    case Bare(e) => Word(s[i..e])
    case Assignment(k, v, e, _) => Setting(s[i..k], s[i..v], s[v..e])
  }

  lemma SegmentText(s: Bytes, i: nat)
    requires i < |s|
    ensures SegmentAt(s, i).Text() == s[i..ExtentAt(s, i).end]
  {
  }

  function Cut(s: Bytes, i: nat): (c: seq<Segment>)
    requires i <= |s|
    decreases |s| - i
  {
    if i == |s| then [] else [SegmentAt(s, i)] + Cut(s, ExtentAt(s, i).end)
  }

  function Texts(segments: seq<Segment>): Bytes {
    if segments == [] then [] else segments[0].Text() + Texts(segments[1..])
  }

  function Redacted(segments: seq<Segment>): Bytes {
    if segments == [] then [] else segments[0].Shown() + Redacted(segments[1..])
  }

  lemma CutStep(s: Bytes, i: nat)
    requires i < |s|
    ensures Redacted(Cut(s, i)) == SegmentAt(s, i).Shown() + Redacted(Cut(s, ExtentAt(s, i).end))
    ensures Texts(Cut(s, i)) == SegmentAt(s, i).Text() + Texts(Cut(s, ExtentAt(s, i).end))
  {
    var c := Cut(s, i);
    assert c[0] == SegmentAt(s, i) && c[1..] == Cut(s, ExtentAt(s, i).end);
  }

  lemma ShownAt(s: Bytes, i: nat)
    requires i < |s|
    ensures SegmentAt(s, i).Shown() == ShownOf(s, i)
  {
    SegmentText(s, i);
  }

  lemma ExtentIs(s: Bytes, i: nat, j: nat, eq: nat)
    requires i < |s| && !IsKVSpace(s[i]) && KeyEnd(s, i) == j && SkipSpaces(s, j) == eq
    ensures eq >= |s| || s[eq] != EQUALS ==> ExtentAt(s, i) == Bare(eq)
    ensures eq < |s| && s[eq] == EQUALS ==>
              var v := SkipSpaces(s, eq + 1);
              ExtentAt(s, i) == Assignment(j, v, ScanValue(s, v).at, ScanValue(s, v).closed)
  {
  }

  /** What is printed of the segment at i. */
  function ShownOf(s: Bytes, i: nat): Bytes
    requires i < |s|
  {
    match ExtentAt(s, i)
    case Blank(_) => [s[i]]
    case Bare(e) => s[i..e]
    case Assignment(k, v, e, closed) => if IsSecretKey(s[i..k]) then s[i..v] + STARS else s[i..e]
  }

  /** It is printed ahead of everything that is still to come; nothing comes after an open quote. */
  lemma NextShown(s: Bytes, i: nat, out: Bytes, all: Bytes)
    requires i < |s| && all == out + Redacted(Cut(s, i))
    ensures all == out + ShownOf(s, i) + Redacted(Cut(s, ExtentAt(s, i).end))
    ensures ExtentAt(s, i).Assignment? && !ExtentAt(s, i).closed ==> all == out + ShownOf(s, i)
  {
    CutStep(s, i);
    ShownAt(s, i);
    Reassociate(out, ShownOf(s, i), Redacted(Cut(s, ExtentAt(s, i).end)));
  }

  /** One round of the source's loop: what it prints of the segment at i, where it goes on, and
      whether it stops at an open quote. */
  method RedactSegment(s: Bytes, i: nat) returns (shown: Bytes, next: nat, open: bool)
    requires i < |s|
    ensures shown == ShownOf(s, i) && next == ExtentAt(s, i).end
    ensures open ==> ExtentAt(s, i).Assignment? && !ExtentAt(s, i).closed
  {
    if IsKVSpace(s[i]) {
      return [s[i]], i + 1, false;
    }
    var j := ScanKey(s, i);
    var eq := ScanSpaces(s, j);
    ExtentIs(s, i, j, eq);
    if eq >= |s| || s[eq] != EQUALS {
      return s[i..eq], eq, false;
    }
    var v := ScanSpaces(s, eq + 1);
    var end, closed := ScanKVValue(s, v);
    assert ExtentAt(s, i) == Assignment(j, v, end, closed);
    var secret := IsSecretKey(s[i..j]);
    if !secret {
      return s[i..end], end, false;
    }
    return s[i..v] + STARS, end, !closed;
  }

  method RedactKeywordValue(s: Bytes) returns (out: Bytes)
    ensures out == Redacted(Cut(s, 0))
  {
    out := [];
    var i := 0;
    ghost var all := Redacted(Cut(s, 0));
    while i < |s|
      invariant i <= |s|
      invariant all == out + Redacted(Cut(s, i))
      decreases |s| - i
    {
      NextShown(s, i, out, all);
      var shown, next, open := RedactSegment(s, i);
      out := out + shown;
      if open {
        return;
      }
      i := next;
    }
  }

  lemma SplitSlice(s: Bytes, i: nat, e: nat)
    requires i <= e <= |s|
    ensures s[i..e] + s[e..] == s[i..]
  {
  }

  /** The segments tile the string. */
  lemma {:induction false} CutTiles(s: Bytes, i: nat)
    requires i <= |s|
    ensures Texts(Cut(s, i)) == s[i..]
    decreases |s| - i
  {
    if i < |s| {
      var e := ExtentAt(s, i).end;
      CutTiles(s, e);
      CutStep(s, i);
      SegmentText(s, i);
      SplitSlice(s, i, e);
    }
  }

  lemma {:induction false} NothingSecret(segments: seq<Segment>)
    requires forall x :: x in segments ==> !x.Secret()
    ensures Redacted(segments) == Texts(segments)
  {
    if segments != [] {
      NothingSecret(segments[1..]);
    }
  }

  /** A string without a secret key is printed as it is. */
  lemma IdentityWithoutSecrets(s: Bytes)
    requires forall x :: x in Cut(s, 0) ==> !x.Secret()
    ensures Redacted(Cut(s, 0)) == s
  {
    NothingSecret(Cut(s, 0));
    CutTiles(s, 0);
  }

  // ---------- secret values do not reach the output ----------

  /** s is what all holds from position d on. */
  predicate Ends(all: Bytes, d: nat, s: Bytes) {
    |all| == d + |s| && forall k :: d <= k < |all| ==> all[k] == s[k - d]
  }

  lemma {:induction false} ValueEndShift(all: Bytes, d: nat, s: Bytes, p: nat, quoted: bool)
    requires Ends(all, d, s)
    ensures ValueEnd(all, d + p, quoted) == End(d + ValueEnd(s, p, quoted).at, ValueEnd(s, p, quoted).closed)
    decreases |s| - p
  {
    if p < |s| {
      if s[p] == BACKSLASH {
        ValueEndShift(all, d, s, p + 2, quoted);
      } else {
        ValueEndShift(all, d, s, p + 1, quoted);
      }
    }
  }

  lemma {:induction false} KeyEndShift(all: Bytes, d: nat, s: Bytes, i: nat)
    requires Ends(all, d, s) && i <= |s|
    ensures KeyEnd(all, d + i) == d + KeyEnd(s, i)
    decreases |s| - i
  {
    if i < |s| {
      KeyEndShift(all, d, s, i + 1);
    }
  }

  lemma {:induction false} SkipSpacesShift(all: Bytes, d: nat, s: Bytes, i: nat)
    requires Ends(all, d, s) && i <= |s|
    ensures SkipSpaces(all, d + i) == d + SkipSpaces(s, i)
    decreases |s| - i
  {
    if i < |s| {
      SkipSpacesShift(all, d, s, i + 1);
    }
  }

  lemma ScanValueShift(all: Bytes, d: nat, s: Bytes, v: nat)
    requires Ends(all, d, s) && v <= |s|
    ensures ScanValue(all, d + v) == End(d + ScanValue(s, v).at, ScanValue(s, v).closed)
  {
    var quoted := v < |s| && s[v] == QUOTE;
    ValueEndShift(all, d, s, if quoted then v + 1 else v, quoted);
  }

  lemma ExtentShift(all: Bytes, d: nat, s: Bytes, i: nat)
    requires Ends(all, d, s) && i < |s|
    ensures ExtentAt(all, d + i) == ExtentAt(s, i).Shift(d)
  {
    if !IsKVSpace(s[i]) {
      var j := KeyEnd(s, i);
      KeyEndShift(all, d, s, i);
      var eq := SkipSpaces(s, j);
      SkipSpacesShift(all, d, s, j);
      KeyShift(all, d, s, i, j, eq);
    }
  }

  lemma KeyShift(all: Bytes, d: nat, s: Bytes, i: nat, j: nat, eq: nat)
    requires Ends(all, d, s) && i < |s| && !IsKVSpace(s[i]) && KeyEnd(s, i) == j && SkipSpaces(s, j) == eq
    requires KeyEnd(all, d + i) == d + j && SkipSpaces(all, d + j) == d + eq
    ensures ExtentAt(all, d + i) == ExtentAt(s, i).Shift(d)
  {
    if eq < |s| && s[eq] == EQUALS {
      AssignmentShift(all, d, s, i, j, eq);
      AssignmentIs(s, i, j, eq, SkipSpaces(s, eq + 1));
    } else {
      assert eq < |s| ==> all[d + eq] != EQUALS;
      ExtentIs(s, i, j, eq);
      ExtentIs(all, d + i, d + j, d + eq);
    }
  }

  lemma AssignmentShift(all: Bytes, d: nat, s: Bytes, i: nat, j: nat, eq: nat)
    requires Ends(all, d, s) && i < |s| && !IsKVSpace(s[i]) && KeyEnd(s, i) == j && SkipSpaces(s, j) == eq
    requires KeyEnd(all, d + i) == d + j && SkipSpaces(all, d + j) == d + eq
    requires eq < |s| && s[eq] == EQUALS
    ensures var v := SkipSpaces(s, eq + 1);
            var e := ScanValue(s, v);
            ExtentAt(all, d + i) == Assignment(d + j, d + v, d + e.at, e.closed)
  {
    ValueShift(all, d, s, eq);
    AssignmentIs(all, d + i, d + j, d + eq, d + SkipSpaces(s, eq + 1));
  }

  lemma AssignmentIs(s: Bytes, i: nat, j: nat, eq: nat, v: nat)
    requires i < |s| && !IsKVSpace(s[i]) && KeyEnd(s, i) == j && SkipSpaces(s, j) == eq
    requires eq < |s| && s[eq] == EQUALS && SkipSpaces(s, eq + 1) == v
    ensures ExtentAt(s, i) == Assignment(j, v, ScanValue(s, v).at, ScanValue(s, v).closed)
  {
    ExtentIs(s, i, j, eq);
  }

  lemma ValueShift(all: Bytes, d: nat, s: Bytes, eq: nat)
    requires Ends(all, d, s) && eq < |s|
    ensures
      var v := SkipSpaces(s, eq + 1);
      && SkipSpaces(all, d + eq + 1) == d + v
      && ScanValue(all, d + v) == End(d + ScanValue(s, v).at, ScanValue(s, v).closed)
  {
    SkipSpacesShift(all, d, s, eq + 1);
    ScanValueShift(all, d, s, SkipSpaces(s, eq + 1));
  }

  lemma SliceShift(all: Bytes, d: nat, s: Bytes, a: nat, b: nat)
    requires Ends(all, d, s) && a <= b <= |s|
    ensures all[d + a..d + b] == s[a..b]
  {
  }

  lemma SegmentShift(all: Bytes, d: nat, s: Bytes, i: nat)
    requires Ends(all, d, s) && i < |s|
    ensures SegmentAt(all, d + i) == SegmentAt(s, i)
    ensures ExtentAt(all, d + i).end == d + ExtentAt(s, i).end
  {
    var x := ExtentAt(s, i);
    ExtentShift(all, d, s, i);
    SliceShift(all, d, s, i, x.end);
    if x.Assignment? {
      SettingShift(all, d, s, i, x);
    }
  }

  lemma SettingShift(all: Bytes, d: nat, s: Bytes, i: nat, x: Extent)
    requires Ends(all, d, s) && x.Assignment? && i <= x.keyEnd < x.value <= x.end <= |s|
    ensures
      && all[d + i..d + x.keyEnd] == s[i..x.keyEnd] && all[d + i..d + x.value] == s[i..x.value]
      && all[d + x.value..d + x.end] == s[x.value..x.end]
  {
    SliceShift(all, d, s, i, x.keyEnd);
    SliceShift(all, d, s, i, x.value);
    SliceShift(all, d, s, x.value, x.end);
  }

  lemma {:induction false} CutShift(all: Bytes, d: nat, s: Bytes, i: nat)
    requires Ends(all, d, s) && i <= |s|
    ensures Cut(all, d + i) == Cut(s, i)
    decreases |s| - i
  {
    if i < |s| {
      CutShift(all, d, s, ExtentAt(s, i).end);
      CutShiftStep(all, d, s, i, ExtentAt(s, i).end);
    }
  }

  lemma CutShiftStep(all: Bytes, d: nat, s: Bytes, i: nat, e: nat)
    requires Ends(all, d, s) && i < |s| && e == ExtentAt(s, i).end && Cut(all, d + e) == Cut(s, e)
    ensures Cut(all, d + i) == Cut(s, i)
  {
    SegmentShift(all, d, s, i);
    SameCut(all, d + i, d + e, s, i, e, SegmentAt(s, i));
  }

  lemma SameCut(s: Bytes, i: nat, e: nat, t: Bytes, j: nat, f: nat, x: Segment)
    requires i < |s| && SegmentAt(s, i) == x && ExtentAt(s, i).end == e
    requires j < |t| && SegmentAt(t, j) == x && ExtentAt(t, j).end == f
    requires Cut(s, e) == Cut(t, f)
    ensures Cut(s, i) == Cut(t, j)
  {
    CutIs(s, i, x, e);
    CutIs(t, j, x, f);
  }

  lemma CutIs(s: Bytes, i: nat, x: Segment, e: nat)
    requires i < |s| && SegmentAt(s, i) == x && ExtentAt(s, i).end == e
    ensures Cut(s, i) == [x] + Cut(s, e)
  {
  }

  lemma {:induction false} ValueEndStable(s: Bytes, t: Bytes, p: nat, quoted: bool)
    requires ValueEnd(s, p, quoted).at < |t| && ValueEnd(s, p, quoted).at < |s|
    requires s[..ValueEnd(s, p, quoted).at + 1] == t[..ValueEnd(s, p, quoted).at + 1]
    ensures ValueEnd(t, p, quoted) == ValueEnd(s, p, quoted)
    decreases |s| - p
  {
    var e := ValueEnd(s, p, quoted).at;
    assert p < |s|;
    if s[p] == BACKSLASH {
      assert p <= e;
      assert s[..e + 1][p] == t[..e + 1][p];
      ValueEndStable(s, t, p + 2, quoted);
    } else {
      assert p <= e;
      assert s[..e + 1][p] == t[..e + 1][p];
      if !(quoted && s[p] == QUOTE) && !(!quoted && IsKVSpace(s[p])) {
        ValueEndStable(s, t, p + 1, quoted);
      }
    }
  }

  lemma {:induction false} KeyEndStable(s: Bytes, t: Bytes, i: nat)
    requires i <= |s| && KeyEnd(s, i) < |s| && KeyEnd(s, i) < |t|
    requires forall k :: i <= k <= KeyEnd(s, i) ==> s[k] == t[k]
    ensures KeyEnd(t, i) == KeyEnd(s, i)
    decreases |s| - i
  {
    if s[i] != EQUALS && !IsKVSpace(s[i]) {
      KeyEndStable(s, t, i + 1);
    }
  }

  lemma {:induction false} SkipSpacesStable(s: Bytes, t: Bytes, i: nat)
    requires i <= |s| && SkipSpaces(s, i) <= |t|
    requires forall k :: i <= k < SkipSpaces(s, i) ==> s[k] == t[k]
    requires SkipSpaces(s, i) < |t| ==> !IsKVSpace(t[SkipSpaces(s, i)])
    ensures SkipSpaces(t, i) == SkipSpaces(s, i)
    decreases |s| - i
  {
    if i < |s| && IsKVSpace(s[i]) {
      SkipSpacesStable(s, t, i + 1);
    }
  }

  lemma {:induction false} AfterSpaces(s: Bytes, i: nat)
    requires i <= |s|
    ensures SkipSpaces(s, i) < |s| ==> !IsKVSpace(s[SkipSpaces(s, i)])
    decreases |s| - i
  {
    if i < |s| && IsKVSpace(s[i]) {
      AfterSpaces(s, i + 1);
    }
  }

  /** A segment's extent is decided by its own bytes and the one byte after it. */
  lemma ExtentStable(s: Bytes, t: Bytes, i: nat, m: nat)
    requires i < |s| && ExtentAt(s, i).end < m <= |s| && m <= |t|
    requires forall k :: 0 <= k < m ==> s[k] == t[k]
    ensures ExtentAt(t, i) == ExtentAt(s, i)
  {
    if !IsKVSpace(s[i]) {
      var j := KeyEnd(s, i);
      var eq := SkipSpaces(s, j);
      assert eq <= ExtentAt(s, i).end;
      KeyEndStable(s, t, i);
      AfterSpaces(s, j);
      SkipSpacesStable(s, t, j);
      ExtentIs(s, i, j, eq);
      ExtentIs(t, i, j, eq);
      if s[eq] == EQUALS {
        ValueStable(s, t, eq, m);
      }
    }
  }

  lemma ValueStable(s: Bytes, t: Bytes, eq: nat, m: nat)
    requires eq < |s| && ScanValue(s, SkipSpaces(s, eq + 1)).at < m <= |s| && m <= |t|
    requires forall k :: 0 <= k < m ==> s[k] == t[k]
    ensures SkipSpaces(t, eq + 1) == SkipSpaces(s, eq + 1)
    ensures ScanValue(t, SkipSpaces(s, eq + 1)) == ScanValue(s, SkipSpaces(s, eq + 1))
  {
    var v := SkipSpaces(s, eq + 1);
    var e := ScanValue(s, v);
    AfterSpaces(s, eq + 1);
    SkipSpacesStable(s, t, eq + 1);
    assert s[..e.at + 1] == t[..e.at + 1];
    var quoted := s[v] == QUOTE;
    ValueEndStable(s, t, if quoted then v + 1 else v, quoted);
  }

  lemma SegmentStable(s: Bytes, t: Bytes, i: nat, m: nat)
    requires i < |s| && ExtentAt(s, i).end < m <= |s| && m <= |t|
    requires s[..m] == t[..m]
    ensures SegmentAt(t, i) == SegmentAt(s, i) && ExtentAt(t, i) == ExtentAt(s, i)
  {
    Agree(s, t, m);
    ExtentStable(s, t, i, m);
    match ExtentAt(s, i)
    case Blank(_) =>
    case Bare(e) => assert s[i..e] == t[i..e];
    case Assignment(k, v, e, _) =>
      assert s[i..k] == t[i..k] && s[i..v] == t[i..v] && s[v..e] == t[v..e];
  }

  lemma Agree(s: Bytes, t: Bytes, m: nat)
    requires m <= |s| && m <= |t| && s[..m] == t[..m]
    ensures forall k :: 0 <= k < m ==> s[k] == t[k]
  {
    assert forall k :: 0 <= k < m ==> s[k] == s[..m][k];
  }

  /** At i starts a setting with a secret key, whose complete value is s[v..e]. */
  predicate SecretHere(s: Bytes, i: nat, v: nat, e: nat)
    requires i < |s|
  {
    var x := ExtentAt(s, i);
    x.Assignment? && x.value == v && x.end == e && x.closed && IsSecretKey(s[i..x.keyEnd])
  }

  /** Scanning from i, some setting with a secret key has the complete value s[v..e]. */
  predicate SecretValueAt(s: Bytes, i: nat, v: nat, e: nat)
    requires i <= |s|
    decreases |s| - i
  {
    i < |s| && (SecretHere(s, i, v, e) || SecretValueAt(s, ExtentAt(s, i).end, v, e))
  }

  lemma {:induction false} SecretValueAfter(s: Bytes, i: nat, v: nat, e: nat)
    requires i <= |s| && SecretValueAt(s, i, v, e)
    ensures i < v <= e <= |s|
    decreases |s| - i
  {
    if !SecretHere(s, i, v, e) {
      SecretValueAfter(s, ExtentAt(s, i).end, v, e);
    }
  }

  /** The same setting with another complete value is shown the same, and ends with that value. */
  lemma SameSetting(s: Bytes, t: Bytes, i: nat, v: nat, e: nat, f: nat)
    requires i < |s| && SecretHere(s, i, v, e)
    requires v <= f <= |t| && s[..v] == t[..v]
    requires v < |t| ==> !IsKVSpace(t[v])
    requires ScanValue(t, v) == End(f, true)
    ensures i < |t| && ExtentAt(t, i).end == f
    ensures SegmentAt(t, i).Shown() == SegmentAt(s, i).Shown()
  {
    Agree(s, t, v);
    var j := KeyEnd(s, i);
    var eq := SkipSpaces(s, j);
    KeyEndStable(s, t, i);
    AfterSpaces(s, j);
    SkipSpacesStable(s, t, j);
    SkipSpacesStable(s, t, eq + 1);
    assert ExtentAt(t, i) == Assignment(j, v, f, true);
    assert s[i..j] == t[i..j] && s[i..v] == t[i..v];
  }

  lemma SameRest(s: Bytes, t: Bytes, e: nat, f: nat)
    requires e <= |s| && f <= |t| && s[e..] == t[f..]
    ensures Cut(s, e) == Cut(t, f)
  {
    CutShift(s, e, s[e..], 0);
    CutShift(t, f, t[f..], 0);
  }

  /** The output does not depend on a secret's value: two strings that differ only in the
      complete value s[v..e], respectively t[v..f], of a secret key print the same. */
  lemma {:induction false} SecretIndependent(s: Bytes, t: Bytes, i: nat, v: nat, e: nat, f: nat)
    requires i <= |s| && SecretValueAt(s, i, v, e)
    requires v <= f <= |t| && e <= |s| && v <= |s|
    requires s[..v] == t[..v] && s[e..] == t[f..]
    requires v < |t| ==> !IsKVSpace(t[v])
    requires ScanValue(t, v) == End(f, true)
    ensures i <= |t| && Redacted(Cut(s, i)) == Redacted(Cut(t, i))
    decreases |s| - i
  {
    SecretValueAfter(s, i, v, e);
    if SecretHere(s, i, v, e) {
      SameSetting(s, t, i, v, e, f);
      SameRest(s, t, e, f);
    } else {
      var next := ExtentAt(s, i).end;
      SecretValueAfter(s, next, v, e);
      SegmentStable(s, t, i, v);
      SecretIndependent(s, t, next, v, e, f);
    }
    CutStep(s, i);
    CutStep(t, i);
  }

  // ---------- an open quote hides the rest ----------

  /** At i starts a setting with a secret key, whose value starts at v with a quote that is never
      closed. */
  predicate OpenHere(s: Bytes, i: nat, v: nat)
    requires i < |s|
  {
    var x := ExtentAt(s, i);
    x.Assignment? && x.value == v && !x.closed && IsSecretKey(s[i..x.keyEnd])
  }

  predicate OpenSecretAt(s: Bytes, i: nat, v: nat)
    requires i <= |s|
    decreases |s| - i
  {
    i < |s| && (OpenHere(s, i, v) || OpenSecretAt(s, ExtentAt(s, i).end, v))
  }

  /** Only a quoted value can be left open. */
  lemma {:induction false} UnquotedCloses(s: Bytes, p: nat)
    ensures ValueEnd(s, p, false).closed
    decreases |s| - p
  {
    if p < |s| {
      UnquotedCloses(s, if s[p] == BACKSLASH then p + 2 else p + 1);
    }
  }

  lemma {:induction false} OpenSecretAfter(s: Bytes, i: nat, v: nat)
    requires i <= |s| && OpenSecretAt(s, i, v)
    ensures i < v < |s| && s[v] == QUOTE
    decreases |s| - i
  {
    if OpenHere(s, i, v) {
      UnquotedCloses(s, v);
    } else {
      OpenSecretAfter(s, ExtentAt(s, i).end, v);
    }
  }

  lemma SameOpenSetting(s: Bytes, t: Bytes, i: nat, v: nat)
    requires i < |s| && OpenHere(s, i, v)
    requires v < |t| && s[..v] == t[..v] && t[v] == QUOTE && !ScanValue(t, v).closed
    ensures i < |t| && ExtentAt(t, i).end == |t| && ExtentAt(s, i).end == |s|
    ensures SegmentAt(t, i).Shown() == SegmentAt(s, i).Shown() == s[i..v] + STARS
  {
    Agree(s, t, v);
    var j := KeyEnd(s, i);
    var eq := SkipSpaces(s, j);
    KeyEndStable(s, t, i);
    AfterSpaces(s, j);
    SkipSpacesStable(s, t, j);
    SkipSpacesStable(s, t, eq + 1);
    assert ExtentAt(t, i) == Assignment(j, v, |t|, false);
    assert s[i..j] == t[i..j] && s[i..v] == t[i..v];
  }

  /** Nothing after the open quote of a secret value reaches the output: two strings that agree up to
      such a quote print the same. */
  lemma {:induction false} OpenSecretHidesTheRest(s: Bytes, t: Bytes, i: nat, v: nat)
    requires i <= |s| && OpenSecretAt(s, i, v)
    requires v < |t| && v < |s| && s[..v] == t[..v] && t[v] == QUOTE && !ScanValue(t, v).closed
    ensures i <= |t| && Redacted(Cut(s, i)) == Redacted(Cut(t, i))
    decreases |s| - i
  {
    OpenSecretAfter(s, i, v);
    if OpenHere(s, i, v) {
      SameOpenSetting(s, t, i, v);
    } else {
      var next := ExtentAt(s, i).end;
      OpenSecretAfter(s, next, v);
      SegmentStable(s, t, i, v);
      OpenSecretHidesTheRest(s, t, next, v);
    }
    CutStep(s, i);
    CutStep(t, i);
  }
}
