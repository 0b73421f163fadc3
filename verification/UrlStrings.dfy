/** What redaction makes of a connection URL that is written part by part (internal/config/redact.go:28-101).
    Bytes are given by number here: 35 is the hash, 37 the percent sign, 38 the ampersand, 42 a star,
    43 the plus, 47 the slash, 58 the colon, 61 the equals sign, 63 the question mark, 64 the at sign. */
module UrlStrings {
  import opened Common
  import opened UrlRedaction
  import Redaction

  // ---------- the two schemes ----------

  /** A string is taken for a URL exactly if it starts with one of the two schemes, in letters of either case. */
  lemma UrlIff(raw: Bytes)
    ensures IsUrl(raw) <==>
      || (|raw| >= 11 && Redaction.SameButCase(raw[..11], "postgres://"))
      || (|raw| >= 13 && Redaction.SameButCase(raw[..13], "postgresql://"))
  {
    SchemeIs(raw, POSTGRES, "postgres://");
    SchemeIs(raw, POSTGRESQL, "postgresql://");
  }

  lemma SchemeIs(raw: Bytes, bytes: Bytes, word: string)
    requires |bytes| == |word| && forall i :: 0 <= i < |word| ==> bytes[i] == word[i] as int && !(65 <= bytes[i] <= 90)
    ensures StartsWith(raw, bytes) <==> |raw| >= |word| && Redaction.SameButCase(raw[..|word|], word)
  {
    if |raw| >= |word| {
      assert forall i :: 0 <= i < |word| ==> raw[..|word|][i] == raw[i];
    }
  }

  // ---------- percent-encoding ----------

  /** How a byte of a key is written. */
  datatype Style = AsIs | Percent(low1: bool, low2: bool) | Plus

  function Digit(n: nat, low: bool): Byte
    requires n < 16
  {
    if n < 10 then 48 + n else if low then 87 + n else 55 + n
  }

  function Written(b: Byte, style: Style): Bytes {
    match style
    case AsIs => [b]
    case Percent(low1, low2) => [37, Digit(b / 16, low1), Digit(b % 16, low2)]
    case Plus => [43]
  }

  predicate StyleOk(b: Byte, style: Style) { (style.AsIs? ==> b != 37 && b != 43) && (style.Plus? ==> b == 32) }

  function Encoded(key: Bytes, styles: seq<Style>): Bytes
    requires |styles| == |key|
  {
    if key == [] then [] else Written(key[0], styles[0]) + Encoded(key[1..], styles[1..])
  }

  lemma DigitReads(n: nat, low: bool)
    requires n < 16
    ensures Hex(Digit(n, low)) == Some(n)
  {
  }

  /** However a key is encoded, it is read back; and nothing can be read from a percent sign without two
      hexadecimal digits behind it. */
  lemma {:induction false} KeyIsRead(key: Bytes, styles: seq<Style>, rest: Bytes)
    requires |styles| == |key| && forall i :: 0 <= i < |key| ==> StyleOk(key[i], styles[i])
    ensures Unescape(Encoded(key, styles)) == Some(key)
    ensures |rest| < 2 || Hex(rest[0]).None? || Hex(rest[1]).None? ==> Unescape(Encoded(key, styles) + [37] + rest) == None
  {
    if key == [] {
      assert [] + [37] + rest == [37] + rest;
    } else {
      var first, more := Written(key[0], styles[0]), Encoded(key[1..], styles[1..]);
      KeyIsRead(key[1..], styles[1..], rest);
      OneRead(key[0], styles[0], more);
      OneRead(key[0], styles[0], more + [37] + rest);
      Reassociate(first, more, [37]);
      Reassociate(first, more + [37], rest);
      assert [key[0]] + key[1..] == key;
    }
  }

  lemma OneRead(b: Byte, style: Style, more: Bytes)
    requires StyleOk(b, style)
    ensures Unescape(Written(b, style) + more) == Prefixed(b, Unescape(more))
  {
    var s := Written(b, style) + more;
    if style.Percent? {
      DigitReads(b / 16, style.low1);
      DigitReads(b % 16, style.low2);
      assert s[0] == 37 && s[1] == Digit(b / 16, style.low1) && s[2] == Digit(b % 16, style.low2) && s[3..] == more;
    } else {
      assert s[1..] == more;
    }
  }

  lemma HexIff(b: Byte)
    ensures Hex(b).Some? <==> 48 <= b <= 57 || 65 <= b <= 70 || 97 <= b <= 102
  {
  }

  /** A parameter is hidden exactly if its key reads as password or sslpassword in any case, however it is
      encoded. */
  lemma HiddenIff(key: Bytes, styles: seq<Style>)
    requires |styles| == |key| && forall i :: 0 <= i < |key| ==> StyleOk(key[i], styles[i])
    requires 0xC5 !in key
    ensures Hidden(Encoded(key, styles)) <==>
      Redaction.SameButCase(key, "password") || Redaction.SameButCase(key, "sslpassword")
  {
    KeyIsRead(key, styles, []);
    Redaction.SecretKeysAre(key);
  }

  // ---------- the query ----------

  datatype Param = Param(key: Bytes, value: Bytes)

  predicate Free(s: Bytes, b: Byte) { forall i :: 0 <= i < |s| ==> s[i] != b }

  /** No ampersand and no hash, and no equals sign in the key. */
  predicate ParamOk(p: Param) {
    && Free(p.key, 61) && Free(p.key, 38) && Free(p.key, 35) && Free(p.value, 38) && Free(p.value, 35)
  }

  function QueryText(params: seq<Param>): Bytes {
    if params == [] then []
    else params[0].key + [61] + params[0].value + (if |params| == 1 then [] else [38] + QueryText(params[1..]))
  }

  /** The same with three stars for the value of every hidden key. */
  function Masked(params: seq<Param>): seq<Param> {
    seq(|params|, i requires 0 <= i < |params| =>
      if Hidden(params[i].key) then Param(params[i].key, [42, 42, 42]) else params[i])
  }

  lemma PartShown(p: Param)
    requires ParamOk(p)
    ensures ShownPart(p.key + [61] + p.value) == p.key + [61] + if Hidden(p.key) then [42, 42, 42] else p.value
  {
    var part := p.key + [61] + p.value;
    IndexIn(p.key, 61, [61] + p.value);
    assert p.key + ([61] + p.value) == part && part[..|p.key|] == p.key;
  }

  function Setting(p: Param): Bytes { p.key + [61] + p.value }

  lemma QueryNext(params: seq<Param>)
    requires params != []
    ensures QueryText(params) == if |params| == 1 then Setting(params[0]) else Setting(params[0]) + [38] + QueryText(params[1..])
  {
    if |params| == 1 {
      assert Setting(params[0]) + [] == Setting(params[0]);
    } else {
      Reassociate(Setting(params[0]), [38], QueryText(params[1..]));
    }
  }

  lemma MaskedNext(params: seq<Param>)
    requires params != [] && ParamOk(params[0])
    ensures Masked(params)[1..] == Masked(params[1..]) && Setting(Masked(params)[0]) == ShownPart(Setting(params[0]))
  {
    PartShown(params[0]);
  }

  lemma {:induction false} QueryMasked(params: seq<Param>)
    requires params != [] && forall i :: 0 <= i < |params| ==> ParamOk(params[i])
    ensures ShownQuery(QueryText(params)) == QueryText(Masked(params))
  {
    var part := Setting(params[0]);
    assert ParamOk(params[0]);
    NoAmpersand(params[0]);
    QueryNext(params);
    QueryNext(Masked(params));
    MaskedNext(params);
    OneParameter(part);
    if |params| > 1 {
      QueryMasked(params[1..]);
      QueryIn(part, QueryText(params[1..]));
    }
  }

  lemma NoAmpersand(p: Param)
    requires ParamOk(p)
    ensures 38 !in Setting(p)
  {
  }

  lemma {:induction false} NoHash(params: seq<Param>)
    requires forall i :: 0 <= i < |params| ==> ParamOk(params[i])
    ensures 35 !in QueryText(params)
  {
    if params != [] {
      NoHash(params[1..]);
      assert ParamOk(params[0]);
    }
  }

  // ---------- the whole URL ----------

  /** A part of an authority: no slash, question mark or hash. */
  predicate Part(s: Bytes) { Free(s, 47) && Free(s, 63) && Free(s, 35) }

  function UrlText(user: Bytes, password: Bytes, host: Bytes, path: Bytes, params: seq<Param>, fragment: Bytes): Bytes {
    POSTGRES + (user + [58] + password + [64] + host) + (path + [63] + QueryText(params) + fragment)
  }

  /** A URL with a user, a password and a query is shown with three stars for the password and for the
      value of every hidden parameter, and with every other byte as it is. */
  lemma UrlMasked(user: Bytes, password: Bytes, host: Bytes, path: Bytes, params: seq<Param>, fragment: Bytes)
    requires user != [] && Part(user) && Free(user, 58) && Part(password) && Part(host) && Free(host, 64)
    requires Free(path, 63) && Free(path, 35) && (path == [] || path[0] == 47) && (fragment == [] || fragment[0] == 35)
    requires params != [] && forall i :: 0 <= i < |params| ==> ParamOk(params[i])
    ensures Shown(UrlText(user, password, host, path, params, fragment))
         == UrlText(user, [42, 42, 42], host, path, Masked(params), fragment)
  {
    var remainder := path + [63] + QueryText(params) + fragment;
    PostgresScheme();
    RemainderMasked(path, params, fragment);
    NoneOf(path, 63);
    assert Delimiter(remainder[0]);
    PasswordHidden(POSTGRES, user, Some(password), host, remainder);
  }

  lemma NoneOf(s: Bytes, b: Byte)
    ensures Free(s, b) <==> b !in s
  {
  }

  lemma RemainderMasked(path: Bytes, params: seq<Param>, fragment: Bytes)
    requires Free(path, 63) && (fragment == [] || fragment[0] == 35)
    requires params != [] && forall i :: 0 <= i < |params| ==> ParamOk(params[i])
    ensures ShownRemainder(path + [63] + QueryText(params) + fragment) == path + [63] + QueryText(Masked(params)) + fragment
  {
    NoneOf(path, 63);
    NoHash(params);
    CutRemainder(path, QueryText(params), fragment);
    QueryMasked(params);
  }
}
