/** What redaction makes of a connection string that is written setting by setting, in the keyword/value
    syntax of libpq (internal/config/redact.go:28-34, 108-188). Bytes are given by number here: 61 is the
    equals sign, 39 the quote, 92 the backslash, 42 a star. */
module ConnStrings {
  import opened Common
  import opened Redaction

  /** key, blanks, an equals sign, blanks, the value in quotes or not, blanks. */
  datatype Param = Param(key: Bytes, before: Bytes, after: Bytes, value: Bytes, quoted: bool, gap: Bytes)

  predicate IsBlank(b: Byte) { b == 32 || 9 <= b <= 13 }

  predicate Blanks(s: Bytes) { forall i :: 0 <= i < |s| ==> IsBlank(s[i]) }

  /** A backslash goes before what would end the value or be taken for an escape. */
  function Escaped(value: Bytes, quoted: bool): Bytes {
    if value == [] then []
    else (if value[0] == 39 || value[0] == 92 || (!quoted && IsBlank(value[0])) then [92, value[0]] else [value[0]])
         + Escaped(value[1..], quoted)
  }

  function ValueText(p: Param): Bytes {
    if p.quoted then [39] + Escaped(p.value, true) + [39] else Escaped(p.value, false)
  }

  function Head(p: Param): Bytes { p.key + p.before + [61] + p.after }

  /** A value without quotes is not empty. */
  predicate ParamOk(p: Param) {
    && p.key != [] && (forall i :: 0 <= i < |p.key| ==> p.key[i] != 61 && !IsBlank(p.key[i]))
    && Blanks(p.before) && Blanks(p.after) && Blanks(p.gap) && (p.value == [] ==> p.quoted)
  }

  function Text(params: seq<Param>): Bytes {
    if params == [] then [] else Head(params[0]) + ValueText(params[0]) + params[0].gap + Text(params[1..])
  }

  /** The same with three stars for the value of every password. */
  function Masked(params: seq<Param>): Bytes {
    if params == [] then []
    else Head(params[0]) + (if IsPassword(params[0].key) then [42, 42, 42] else ValueText(params[0])) + params[0].gap
         + Masked(params[1..])
  }

  /** password or sslpassword, in any case; U+017F counts as an s. */
  predicate IsPassword(key: Bytes) { IsSecretKey(key) }

  /** Blanks stand between one setting and what follows. */
  predicate Spaced(params: seq<Param>, rest: Bytes) {
    forall i :: 0 <= i < |params| ==> ParamOk(params[i]) && (params[i].gap != [] || (i == |params| - 1 && rest == []))
  }

  // ---------- where the parts of a setting are found ----------

  lemma {:induction false} KeyEndIs(s: Bytes, i: nat, j: nat)
    requires i <= j <= |s| && forall k :: i <= k < j ==> s[k] != 61 && !IsBlank(s[k])
    requires j < |s| ==> s[j] == 61 || IsBlank(s[j])
    ensures KeyEnd(s, i) == j
    decreases j - i
  {
    if i < j {
      KeyEndIs(s, i + 1, j);
    }
  }

  lemma {:induction false} BlanksEnd(s: Bytes, i: nat, j: nat)
    requires i <= j <= |s| && forall k :: i <= k < j ==> IsBlank(s[k])
    requires j < |s| ==> !IsBlank(s[j])
    ensures SkipSpaces(s, i) == j
    decreases j - i
  {
    if i < j {
      BlanksEnd(s, i + 1, j);
    }
  }

  lemma {:induction false} QuotedEnds(s: Bytes, p: nat, value: Bytes)
    requires p <= |s| && Escaped(value, true) <= s[p..]
    ensures
      var q := p + |Escaped(value, true)|;
      && (q < |s| && s[q] == 39 ==> ValueEnd(s, p, true) == End(q + 1, true))
      && (q == |s| ==> ValueEnd(s, p, true) == End(|s|, false))
    decreases |value|
  {
    if value != [] {
      var first := if value[0] == 39 || value[0] == 92 then [92, value[0]] else [value[0]];
      FirstOf(s, p, first, Escaped(value[1..], true));
      QuotedEnds(s, p + |first|, value[1..]);
    }
  }

  lemma {:induction false} BareEnds(s: Bytes, p: nat, value: Bytes)
    requires p <= |s| && Escaped(value, false) <= s[p..]
    ensures
      var q := p + |Escaped(value, false)|;
      q == |s| || IsBlank(s[q]) ==> ValueEnd(s, p, false) == End(q, true)
    decreases |value|
  {
    if value != [] {
      var first := if value[0] == 39 || value[0] == 92 || IsBlank(value[0]) then [92, value[0]] else [value[0]];
      FirstOf(s, p, first, Escaped(value[1..], false));
      BareEnds(s, p + |first|, value[1..]);
    }
  }

  lemma FirstOf(s: Bytes, p: nat, first: Bytes, rest: Bytes)
    requires p <= |s| && first + rest <= s[p..]
    ensures p + |first| <= |s| && rest <= s[p + |first|..]
    ensures forall k :: 0 <= k < |first| ==> s[p + k] == first[k]
  {
    assert forall k :: 0 <= k < |first| ==> s[p..][k] == (first + rest)[k];
    assert s[p..][|first|..] == s[p + |first|..];
    assert (first + rest)[|first|..] == rest;
  }

  /** The first setting of a string, by its parts: the value starts after the head. */
  lemma HeadFound(p: Param, tail: Bytes)
    requires ParamOk(p) && tail != [] && !IsBlank(tail[0])
    ensures
      var s, v := Head(p) + tail, |Head(p)|;
      && ExtentAt(s, 0) == Assignment(|p.key|, v, ScanValue(s, v).at, ScanValue(s, v).closed)
      && s[..|p.key|] == p.key && s[..v] == Head(p) && s[v..] == tail
  {
    var s := Head(p) + tail;
    var j := |p.key|;
    var eq := j + |p.before|;
    assert forall k :: 0 <= k < j ==> s[k] == p.key[k];
    assert forall k :: j <= k < eq ==> s[k] == p.before[k - j];
    assert s[eq] == 61;
    assert forall k :: eq < k < |Head(p)| ==> s[k] == p.after[k - eq - 1];
    KeyEndIs(s, 0, j);
    BlanksEnd(s, j, eq);
    BlanksEnd(s, eq + 1, |Head(p)|);
    AssignmentIs(s, 0, j, eq, |Head(p)|);
  }

  lemma {:induction false} GapShown(gap: Bytes, rest: Bytes)
    requires Blanks(gap)
    ensures Redacted(Cut(gap + rest, 0)) == gap + Redacted(Cut(rest, 0))
  {
    var s := gap + rest;
    if gap == [] {
      assert s == rest && gap + Redacted(Cut(rest, 0)) == Redacted(Cut(rest, 0));
    } else {
      assert s[1..] == gap[1..] + rest;
      GapShown(gap[1..], rest);
      CutStep(s, 0);
      SameRest(s, s[1..], 1, 0);
      assert s[1..][0..] == s[1..];
      assert gap == [gap[0]] + gap[1..];
      Reassociate([gap[0]], gap[1..], Redacted(Cut(rest, 0)));
    }
  }

  /** A setting with a complete value: how it is shown, and that it ends with the value. */
  lemma ValueFound(p: Param, rest: Bytes)
    requires ParamOk(p) && (rest == [] || p.quoted || IsBlank(rest[0]))
    ensures
      var s, v := Head(p) + (ValueText(p) + rest), |Head(p)|;
      && ExtentAt(s, 0) == Assignment(|p.key|, v, v + |ValueText(p)|, true)
      && s[..|p.key|] == p.key && s[..v] == Head(p) && s[v..] == ValueText(p) + rest
  {
    var tail := ValueText(p) + rest;
    var s, v := Head(p) + tail, |Head(p)|;
    ValueStart(p);
    HeadFound(p, tail);
    if p.quoted {
      QuotedFound(s, v, p.value, rest);
    } else {
      BareFound(s, v, p.value, rest);
    }
  }

  lemma QuotedFound(s: Bytes, v: nat, value: Bytes, rest: Bytes)
    requires v <= |s| && s[v..] == [39] + Escaped(value, true) + [39] + rest
    ensures ScanValue(s, v) == End(v + |Escaped(value, true)| + 2, true)
  {
    QuotedTail(value, rest);
    assert s[v] == s[v..][0] && s[v + 1..] == s[v..][1..];
    QuotedEnds(s, v + 1, value);
    assert s[v + |Escaped(value, true)| + 1] == s[v..][|Escaped(value, true)| + 1];
  }

  lemma BareFound(s: Bytes, v: nat, value: Bytes, rest: Bytes)
    requires v <= |s| && s[v..] == Escaped(value, false) + rest && value != [] && (rest == [] || IsBlank(rest[0]))
    ensures ScanValue(s, v) == End(v + |Escaped(value, false)|, true)
  {
    assert Escaped(value, false)[0] != 39;
    assert s[v] == s[v..][0];
    BareEnds(s, v, value);
    assert rest != [] ==> s[v + |Escaped(value, false)|] == s[v..][|Escaped(value, false)|];
  }

  lemma QuotedTail(value: Bytes, rest: Bytes)
    ensures
      var tail := [39] + Escaped(value, true) + [39] + rest;
      Escaped(value, true) <= tail[1..] && |tail| > |Escaped(value, true)| + 1 && tail[|Escaped(value, true)| + 1] == 39
  {
    var tail := [39] + Escaped(value, true) + [39] + rest;
    assert tail[1..] == Escaped(value, true) + ([39] + rest);
  }

  lemma ValueStart(p: Param)
    requires p.value == [] ==> p.quoted
    ensures ValueText(p) != [] && !IsBlank(ValueText(p)[0]) && (ValueText(p)[0] == 39 <==> p.quoted)
  {
  }

  lemma OneShown(p: Param, rest: Bytes)
    requires ParamOk(p) && (p.gap != [] || rest == [])
    ensures Redacted(Cut(Head(p) + ValueText(p) + p.gap + rest, 0))
         == Head(p) + (if IsPassword(p.key) then [42, 42, 42] else ValueText(p)) + p.gap + Redacted(Cut(rest, 0))
  {
    var shown, last := if IsPassword(p.key) then [42, 42, 42] else ValueText(p), Redacted(Cut(rest, 0));
    var tail := p.gap + rest;
    var s, v := Head(p) + (ValueText(p) + tail), |Head(p)|;
    Reassociate(Head(p) + ValueText(p), p.gap, rest);
    Reassociate(Head(p), ValueText(p), tail);
    ValueFound(p, tail);
    var e := v + |ValueText(p)|;
    assert s[e..] == tail && s[..e] == Head(p) + ValueText(p);
    CutStep(s, 0);
    ShownAt(s, 0);
    SameRest(s, tail, e, 0);
    GapShown(p.gap, rest);
    Reassociate(Head(p) + shown, p.gap, last);
  }

  /** In a string of such settings every password is three stars, whatever it is and however it is
      written, and every other byte is shown as it is. */
  lemma {:induction false} PasswordsMasked(params: seq<Param>, rest: Bytes)
    requires Spaced(params, rest)
    ensures Redacted(Cut(Text(params) + rest, 0)) == Masked(params) + Redacted(Cut(rest, 0))
    decreases |params|
  {
    if params == [] {
      assert Text(params) + rest == rest && Masked(params) + Redacted(Cut(rest, 0)) == Redacted(Cut(rest, 0));
    } else {
      var p, more := params[0], params[1..];
      assert Spaced(more, rest);
      PasswordsMasked(more, rest);
      var front := Head(p) + ValueText(p) + p.gap;
      Reassociate(front, Text(more), rest);
      NothingAfter(params, rest);
      OneShown(p, Text(more) + rest);
      Reassociate(Head(p) + (if IsPassword(p.key) then [42, 42, 42] else ValueText(p)) + p.gap,
                  Masked(more), Redacted(Cut(rest, 0)));
    }
  }

  lemma NothingAfter(params: seq<Param>, rest: Bytes)
    requires params != [] && Spaced(params, rest)
    ensures ParamOk(params[0]) && (params[0].gap != [] || Text(params[1..]) + rest == [])
  {
  }

  /** Of a whole string: */
  lemma ConnectionStringMasked(params: seq<Param>)
    requires Spaced(params, [])
    ensures Redacted(Cut(Text(params), 0)) == Masked(params)
  {
    PasswordsMasked(params, []);
    assert Text(params) + [] == Text(params) && Masked(params) + [] == Masked(params);
  }

  /** and of one that ends in a password whose quote is never closed: nothing of it is shown. */
  lemma OpenPasswordMasked(params: seq<Param>, p: Param)
    requires Spaced(params, Head(p)) && ParamOk(p) && IsPassword(p.key)
    ensures Redacted(Cut(Text(params) + (Head(p) + ([39] + Escaped(p.value, true))), 0)) == Masked(params) + (Head(p) + [42, 42, 42])
  {
    var s := Head(p) + ([39] + Escaped(p.value, true));
    OpenShown(p);
    PasswordsMasked(params, s);
  }

  lemma OpenShown(p: Param)
    requires ParamOk(p) && IsPassword(p.key)
    ensures Redacted(Cut(Head(p) + ([39] + Escaped(p.value, true)), 0)) == Head(p) + [42, 42, 42]
  {
    var tail := [39] + Escaped(p.value, true);
    var s, v := Head(p) + tail, |Head(p)|;
    HeadFound(p, tail);
    OpenFound(s, v, p.value);
    CutStep(s, 0);
    ShownAt(s, 0);
    assert Cut(s, |s|) == [];
    assert Head(p) + STARS + [] == Head(p) + [42, 42, 42];
  }

  lemma OpenFound(s: Bytes, v: nat, value: Bytes)
    requires v <= |s| && s[v..] == [39] + Escaped(value, true)
    ensures ScanValue(s, v) == End(|s|, false)
  {
    assert s[v] == s[v..][0] == 39;
    assert s[v + 1..] == s[v..][1..] == Escaped(value, true);
    QuotedEnds(s, v + 1, value);
  }
}
