/** Hiding passwords in connection URLs (internal/config/redact.go:35-101). */
module UrlRedaction {
  import opened Common
  import Redaction

  const STARS := Redaction.STARS
  const SLASH: Byte := 47
  const QUESTION: Byte := 63
  const HASH: Byte := 35
  const AT: Byte := 64
  const COLON: Byte := 58
  const AMPERSAND: Byte := 38
  const EQUALS: Byte := 61
  const PERCENT: Byte := 37
  const PLUS: Byte := 43

  // ---------- searching ----------

  /** The index of the first b in s, or its length. */
  function IndexOf(s: Bytes, b: Byte): (i: nat)
    ensures i <= |s|
  {
    if s == [] || s[0] == b then 0 else 1 + IndexOf(s[1..], b)
  }

  /** Just past the last b in s, or 0. */
  function PastLast(s: Bytes, b: Byte): (i: nat)
    ensures i <= |s|
  {
    if s == [] then 0 else if s[|s| - 1] == b then |s| else PastLast(s[..|s| - 1], b)
  }

  lemma {:induction false} IndexOfFinds(s: Bytes, b: Byte)
    ensures b !in s[..IndexOf(s, b)] && (IndexOf(s, b) < |s| ==> s[IndexOf(s, b)] == b)
    ensures b in s ==> IndexOf(s, b) < |s|
  {
    if s != [] && s[0] != b {
      IndexOfFinds(s[1..], b);
      assert s[..IndexOf(s, b)] == [s[0]] + s[1..][..IndexOf(s[1..], b)];
      assert s == [s[0]] + s[1..];
    }
  }

  predicate Delimiter(b: Byte) { b == SLASH || b == QUESTION || b == HASH }

  predicate Plain(s: Bytes) { forall i :: 0 <= i < |s| ==> !Delimiter(s[i]) }

  /** Where the authority ends. */
  function AuthorityEnd(rest: Bytes): (i: nat)
    ensures i <= |rest|
  {
    if rest == [] || Delimiter(rest[0]) then 0 else 1 + AuthorityEnd(rest[1..])
  }

  /** Just past the first "://", or 0. */
  function SchemeEnd(raw: Bytes): (i: nat)
    ensures i <= |raw|
  {
    if |raw| < 3 then 0
    else if raw[0] == COLON && raw[1] == SLASH && raw[2] == SLASH then 3
    else if SchemeEnd(raw[1..]) == 0 then 0
    else 1 + SchemeEnd(raw[1..])
  }

  /** strings.Split at a byte. */
  function Split(s: Bytes, b: Byte): (parts: seq<Bytes>)
    ensures |parts| > 0
    decreases |s|
  {
    var i := IndexOf(s, b);
    if i == |s| then [s] else [s[..i]] + Split(s[i + 1..], b)
  }

  function Join(parts: seq<Bytes>, b: Byte): Bytes {
    if parts == [] then [] else if |parts| == 1 then parts[0] else parts[0] + [b] + Join(parts[1..], b)
  }

  // ---------- percent-decoding ----------

  function Hex(b: Byte): Option<nat> {
    if 48 <= b <= 57 then Some(b - 48)
    else if 65 <= b <= 70 then Some(b - 55)
    else if 97 <= b <= 102 then Some(b - 87)
    else None
  }

  function Prefixed(b: Byte, rest: Option<Bytes>): Option<Bytes> {
    if rest.None? then None else Some([b] + rest.value)
  }

  /** url.QueryUnescape; None where it fails. */
  function Unescape(s: Bytes): Option<Bytes>
    decreases |s|
  {
    if s == [] then Some([])
    else if s[0] == PERCENT then
      if |s| < 3 || Hex(s[1]).None? || Hex(s[2]).None? then None
      else Prefixed(16 * Hex(s[1]).value + Hex(s[2]).value, Unescape(s[3..]))
    else Prefixed(if s[0] == PLUS then 32 else s[0], Unescape(s[1..]))
  }

  /** A key whose value is hidden: a secret one, or one that cannot be read. */
  predicate Hidden(key: Bytes) {
    Unescape(key).None? || Redaction.IsSecretKey(Unescape(key).value)
  }

  // ---------- what is printed ----------

  function ShownAuthority(authority: Bytes): Bytes {
    var at := PastLast(authority, AT);
    if at == 0 then authority
    else
      var user := authority[..at - 1][..IndexOf(authority[..at - 1], COLON)];
      (if user == [] then [] else user + [COLON]) + STARS + [AT] + authority[at..]
  }

  function ShownPart(part: Bytes): Bytes {
    var eq := IndexOf(part, EQUALS);
    if eq < |part| && Hidden(part[..eq]) then part[..eq] + [EQUALS] + STARS else part
  }

  function ShownParts(parts: seq<Bytes>): seq<Bytes> {
    seq(|parts|, i requires 0 <= i < |parts| => ShownPart(parts[i]))
  }

  function ShownQuery(query: Bytes): Bytes { Join(ShownParts(Split(query, AMPERSAND)), AMPERSAND) }

  /** What follows the authority. */
  function ShownRemainder(remainder: Bytes): Bytes {
    var q := IndexOf(remainder, QUESTION);
    if q == |remainder| then remainder
    else Around(remainder[..q + 1], ShownQuery(remainder[q + 1..QueryEnd(remainder)]), remainder[QueryEnd(remainder)..])
  }

  /** Where the query ends that starts at the first question mark. */
  function QueryEnd(remainder: Bytes): (end: nat)
    requires IndexOf(remainder, QUESTION) < |remainder|
    ensures IndexOf(remainder, QUESTION) < end <= |remainder|
  {
    var q := IndexOf(remainder, QUESTION);
    q + 1 + IndexOf(remainder[q + 1..], HASH)
  }

  function Around(before: Bytes, middle: Bytes, after: Bytes): Bytes { before + middle + after }

  function Shown(raw: Bytes): Bytes {
    var s := SchemeEnd(raw);
    if s == 0 then raw
    else
      var rest := raw[s..];
      var a := AuthorityEnd(rest);
      raw[..s] + ShownAuthority(rest[..a]) + ShownRemainder(rest[a..])
  }

  // ---------- the source's loops ----------

  method FindAuthorityEnd(rest: Bytes) returns (authEnd: nat)
    ensures authEnd == AuthorityEnd(rest)
  {
    authEnd := |rest|;
    for i := 0 to |rest|
      invariant AuthorityEnd(rest) == i + AuthorityEnd(rest[i..])
      invariant authEnd == |rest|
    {
      assert rest[i..][1..] == rest[i + 1..];
      if rest[i] == SLASH || rest[i] == QUESTION || rest[i] == HASH {
        return i;
      }
    }
  }

  method RedactParts(query: Bytes) returns (shown: Bytes)
    ensures shown == ShownQuery(query)
  {
    var parts := Split(query, AMPERSAND);
    ghost var was := parts;
    for i := 0 to |parts|
      invariant |parts| == |was|
      invariant forall k :: 0 <= k < i ==> parts[k] == ShownPart(was[k])
      invariant forall k :: i <= k < |parts| ==> parts[k] == was[k]
    {
      var p := parts[i];
      var eq := IndexOf(p, EQUALS);
      if eq < |p| {
        var decoded := Unescape(p[..eq]);
        if decoded.None? || Redaction.IsSecretKey(decoded.value) {
          parts := parts[i := p[..eq] + [EQUALS] + STARS];
        }
      }
    }
    assert parts == ShownParts(was);
    return Join(parts, AMPERSAND);
  }

  method RedactRemainder(remainder: Bytes) returns (shown: Bytes)
    ensures shown == ShownRemainder(remainder)
  {
    var q := IndexOf(remainder, QUESTION);
    if q == |remainder| {
      return remainder;
    }
    var end := QueryEnd(remainder);
    var parts := RedactParts(remainder[q + 1..end]);
    shown := Around(remainder[..q + 1], parts, remainder[end..]);
  }

  method RedactURLString(raw: Bytes) returns (out: Bytes)
    ensures out == Shown(raw)
  {
    var s := SchemeEnd(raw);
    if s == 0 {
      return raw;
    }
    var rest := raw[s..];
    var a := FindAuthorityEnd(rest);
    var authority := rest[..a];
    var at := PastLast(authority, AT);
    if at > 0 {
      var userinfo, host := authority[..at - 1], authority[at..];
      var user := userinfo[..IndexOf(userinfo, COLON)];
      authority := (if user == [] then [] else user + [COLON]) + STARS + [AT] + host;
    }
    var remainder := RedactRemainder(rest[a..]);
    return raw[..s] + authority + remainder;
  }

  // ---------- which form it is ----------

  const POSTGRES: Bytes := [112, 111, 115, 116, 103, 114, 101, 115, 58, 47, 47]
  const POSTGRESQL: Bytes := [112, 111, 115, 116, 103, 114, 101, 115, 113, 108, 58, 47, 47]

  /** raw starts with prefix, in letters of either case. */
  predicate StartsWith(raw: Bytes, prefix: Bytes) {
    |prefix| <= |raw| && forall i :: 0 <= i < |prefix| ==> (if 65 <= raw[i] <= 90 then raw[i] + 32 else raw[i]) == prefix[i]
  }

  predicate IsUrl(raw: Bytes) { StartsWith(raw, POSTGRES) || StartsWith(raw, POSTGRESQL) }

  method RedactURL(raw: Bytes) returns (out: Bytes)
    ensures out == if IsUrl(raw) then Shown(raw) else Redaction.Redacted(Redaction.Cut(raw, 0))
  {
    if raw == [] {
      return [];
    }
    if IsUrl(raw) {
      out := RedactURLString(raw);
    } else {
      out := Redaction.RedactKeywordValue(raw);
    }
  }

  lemma {:induction false} SchemeBy(raw: Bytes, i: nat)
    requires i + 2 < |raw| && raw[i] == COLON && raw[i + 1] == SLASH && raw[i + 2] == SLASH
    ensures 0 < SchemeEnd(raw) <= i + 3
  {
    if i > 0 {
      SchemeBy(raw[1..], i - 1);
    }
  }

  /** A string taken for a URL is cut as one; it is never passed through for want of a scheme. */
  lemma UrlHasScheme(raw: Bytes)
    requires IsUrl(raw)
    ensures 0 < SchemeEnd(raw) <= 13
  {
    if StartsWith(raw, POSTGRES) {
      assert POSTGRES[8] == COLON && POSTGRES[9] == SLASH && POSTGRES[10] == SLASH;
      SchemeBy(raw, 8);
    } else {
      assert POSTGRESQL[10] == COLON && POSTGRESQL[11] == SLASH && POSTGRESQL[12] == SLASH;
      SchemeBy(raw, 10);
    }
  }

  // ---------- a URL is put together from what it is cut into ----------

  lemma {:induction false} IndexIn(a: Bytes, b: Byte, rest: Bytes)
    requires b !in a && (rest == [] || rest[0] == b)
    ensures IndexOf(a + rest, b) == |a|
  {
    if a == [] {
      assert a + rest == rest;
    } else {
      assert (a + rest)[1..] == a[1..] + rest;
      IndexIn(a[1..], b, rest);
    }
  }

  lemma {:induction false} LastIn(a: Bytes, b: Byte, rest: Bytes)
    requires b !in rest
    ensures PastLast(a + [b] + rest, b) == |a| + 1
  {
    var s := a + [b] + rest;
    if rest != [] {
      assert s[..|s| - 1] == a + [b] + rest[..|rest| - 1];
      LastIn(a, b, rest[..|rest| - 1]);
    }
  }

  lemma {:induction false} AuthorityIn(a: Bytes, rest: Bytes)
    requires Plain(a) && (rest == [] || Delimiter(rest[0]))
    ensures AuthorityEnd(a + rest) == |a|
  {
    if a == [] {
      assert a + rest == rest;
    } else {
      assert (a + rest)[1..] == a[1..] + rest;
      AuthorityIn(a[1..], rest);
    }
  }

  lemma {:induction false} SchemeIn(scheme: Bytes, rest: Bytes)
    requires SchemeEnd(scheme) > 0
    ensures SchemeEnd(scheme + rest) == SchemeEnd(scheme)
  {
    if !(scheme[0] == COLON && scheme[1] == SLASH && scheme[2] == SLASH) {
      assert (scheme + rest)[1..] == scheme[1..] + rest;
      SchemeIn(scheme[1..], rest);
    }
  }

  lemma FirstPart(x: Bytes, b: Byte, y: Bytes)
    requires b !in x
    ensures Split(x + [b] + y, b) == [x] + Split(y, b)
  {
    var s := x + [b] + y;
    IndexIn(x, b, [b] + y);
    assert x + ([b] + y) == s;
    assert s[..|x|] == x && s[|x| + 1..] == y;
  }

  lemma OnlyPart(x: Bytes, b: Byte)
    requires b !in x
    ensures Split(x, b) == [x]
  {
    IndexIn(x, b, []);
    assert x + [] == x;
  }

  lemma CutFirst(a: Bytes, b: Byte) returns (x: Bytes, tail: Bytes)
    requires b in a
    ensures a == x + [b] + tail && b !in x
  {
    var i := IndexOf(a, b);
    IndexOfFinds(a, b);
    x := a[..i];
    tail := a[i + 1..];
  }

  lemma PartBefore(x: Bytes, b: Byte, tail: Bytes, rest: Bytes)
    requires b !in x && Split(tail + [b] + rest, b) == Split(tail, b) + Split(rest, b)
    ensures Split(x + [b] + tail + [b] + rest, b) == Split(x + [b] + tail, b) + Split(rest, b)
  {
    FirstPart(x, b, tail);
    FirstPart(x, b, tail + [b] + rest);
    Reassociate(x + [b], tail, [b]);
    Reassociate(x + [b], tail + [b], rest);
    Reassociate([x], Split(tail, b), Split(rest, b));
  }

  lemma {:induction false} SplitIn(a: Bytes, b: Byte, rest: Bytes)
    ensures Split(a + [b] + rest, b) == Split(a, b) + Split(rest, b)
    decreases |a|
  {
    if b !in a {
      OnlyPart(a, b);
      FirstPart(a, b, rest);
    } else {
      var x, tail := CutFirst(a, b);
      SplitIn(tail, b, rest);
      PartBefore(x, b, tail, rest);
    }
  }

  lemma {:induction false} JoinIn(a: seq<Bytes>, c: seq<Bytes>, b: Byte)
    requires a != [] && c != []
    ensures Join(a + c, b) == Join(a, b) + [b] + Join(c, b)
  {
    assert (a + c)[1..] == a[1..] + c;
    if |a| > 1 {
      JoinIn(a[1..], c, b);
    }
  }

  lemma JoinFirst(x: Bytes, parts: seq<Bytes>, b: Byte)
    requires parts != []
    ensures Join([x] + parts, b) == x + [b] + Join(parts, b)
  {
    assert ([x] + parts)[1..] == parts;
  }

  lemma {:induction false} JoinSplit(s: Bytes, b: Byte)
    ensures Join(Split(s, b), b) == s
    decreases |s|
  {
    if b !in s {
      OnlyPart(s, b);
    } else {
      var x, tail := CutFirst(s, b);
      JoinSplit(tail, b);
      FirstPart(x, b, tail);
      JoinFirst(x, Split(tail, b), b);
    }
  }

  /** A query is shown parameter by parameter. */
  lemma QueryIn(a: Bytes, rest: Bytes)
    ensures ShownQuery(a + [AMPERSAND] + rest) == ShownQuery(a) + [AMPERSAND] + ShownQuery(rest)
  {
    SplitIn(a, AMPERSAND, rest);
    var p, q := Split(a, AMPERSAND), Split(rest, AMPERSAND);
    assert ShownParts(p + q) == ShownParts(p) + ShownParts(q);
    JoinIn(ShownParts(p), ShownParts(q), AMPERSAND);
  }

  lemma OneParameter(part: Bytes)
    requires AMPERSAND !in part
    ensures ShownQuery(part) == ShownPart(part)
  {
    OnlyPart(part, AMPERSAND);
    assert ShownParts([part]) == [ShownPart(part)];
  }

  // ---------- the userinfo password ----------

  /** The user of a userinfo and its password, if it has a colon. */
  function Userinfo(user: Bytes, password: Option<Bytes>): Bytes {
    if password.None? then user else user + [COLON] + password.value
  }

  /** What a URL with a userinfo should be shown as. */
  function Masked(scheme: Bytes, user: Bytes, host: Bytes, remainder: Bytes): Bytes {
    scheme + ((if user == [] then [] else user + [COLON]) + STARS + [AT] + host) + ShownRemainder(remainder)
  }

  /** A URL's userinfo is shown as its user and three stars, whatever the password is, and whether
      there is one; every other byte before the query is shown as it is. None of the parts has a slash,
      question mark or hash, the first of which ends the authority (section 3.2 of RFC 3986). */
  lemma PasswordHidden(scheme: Bytes, user: Bytes, password: Option<Bytes>, host: Bytes, remainder: Bytes)
    requires SchemeEnd(scheme) == |scheme| > 0
    requires Plain(user) && COLON !in user && (password.Some? ==> Plain(password.value))
    requires Plain(host) && AT !in host
    requires remainder == [] || Delimiter(remainder[0])
    ensures Shown(scheme + (Userinfo(user, password) + [AT] + host) + remainder)
         == Masked(scheme, user, host, remainder)
  {
    var authority := Userinfo(user, password) + [AT] + host;
    PlainAuthority(user, password, host);
    CutUrl(scheme, authority, remainder);
    ShownUserinfo(user, password, host);
  }

  lemma PlainAuthority(user: Bytes, password: Option<Bytes>, host: Bytes)
    requires Plain(user) && (password.Some? ==> Plain(password.value)) && Plain(host)
    ensures Plain(Userinfo(user, password) + [AT] + host)
  {
  }

  lemma ShownUserinfo(user: Bytes, password: Option<Bytes>, host: Bytes)
    requires COLON !in user && AT !in host
    ensures ShownAuthority(Userinfo(user, password) + [AT] + host)
         == (if user == [] then [] else user + [COLON]) + STARS + [AT] + host
  {
    var userinfo := Userinfo(user, password);
    var authority := userinfo + [AT] + host;
    LastIn(userinfo, AT, host);
    assert authority[..|userinfo|] == userinfo && authority[|userinfo| + 1..] == host;
    UserOf(user, password);
  }

  lemma UserOf(user: Bytes, password: Option<Bytes>)
    requires COLON !in user
    ensures var u := Userinfo(user, password); u[..IndexOf(u, COLON)] == user
  {
    if password.None? {
      IndexIn(user, COLON, []);
      assert user + [] == user;
    } else {
      IndexIn(user, COLON, [COLON] + password.value);
      assert user + ([COLON] + password.value) == user + [COLON] + password.value;
    }
  }

  lemma {:induction false} NoneIn(s: Bytes, b: Byte)
    requires b !in s
    ensures PastLast(s, b) == 0
  {
    if s != [] {
      NoneIn(s[..|s| - 1], b);
    }
  }

  /** A URL without a userinfo is shown as it is, up to its query. */
  lemma NoUserinfo(scheme: Bytes, authority: Bytes, remainder: Bytes)
    requires SchemeEnd(scheme) == |scheme| > 0 && Plain(authority) && AT !in authority
    requires remainder == [] || Delimiter(remainder[0])
    ensures Shown(scheme + authority + remainder) == scheme + authority + ShownRemainder(remainder)
  {
    CutUrl(scheme, authority, remainder);
    NoneIn(authority, AT);
  }

  lemma CutUrl(scheme: Bytes, authority: Bytes, remainder: Bytes)
    requires SchemeEnd(scheme) == |scheme| > 0 && Plain(authority) && (remainder == [] || Delimiter(remainder[0]))
    ensures Shown(scheme + authority + remainder) == scheme + ShownAuthority(authority) + ShownRemainder(remainder)
  {
    var rest := authority + remainder;
    Reassociate(scheme, authority, remainder);
    SchemeIn(scheme, rest);
    Halves(scheme, rest);
    AuthorityIn(authority, remainder);
    Halves(authority, remainder);
  }

  lemma Halves(a: Bytes, b: Bytes)
    ensures (a + b)[..|a|] == a && (a + b)[|a|..] == b
  {
  }

  // ---------- a password that ends the authority ----------

  /** Where a slash, question mark or hash stands in the password, the authority ends there, and the
      password up to it is printed as it is, with what follows after the query rules. */
  lemma RawDelimiterShown(scheme: Bytes, user: Bytes, a: Bytes, b: Bytes, host: Bytes, remainder: Bytes)
    requires SchemeEnd(scheme) == |scheme| > 0 && Plain(user) && AT !in user
    requires Plain(a) && AT !in a && b != [] && Delimiter(b[0])
    ensures Shown(scheme + (user + [COLON] + a) + (b + [AT] + host + remainder))
         == scheme + (user + [COLON] + a) + ShownRemainder(b + [AT] + host + remainder)
  {
    PlainFront(user, a);
    SameStart(b, [AT], host, remainder);
    NoUserinfo(scheme, user + [COLON] + a, b + [AT] + host + remainder);
  }

  lemma PlainFront(user: Bytes, a: Bytes)
    requires Plain(user) && AT !in user && Plain(a) && AT !in a
    ensures Plain(user + [COLON] + a) && AT !in user + [COLON] + a
  {
  }

  lemma SameStart(b: Bytes, x: Bytes, y: Bytes, z: Bytes)
    requires b != []
    ensures var s := b + x + y + z; s != [] && s[0] == b[0]
  {
  }

  /** Without a query that is the whole URL, password and all. */
  lemma RawPasswordShown(user: Bytes, a: Bytes, b: Bytes, host: Bytes, remainder: Bytes)
    requires Plain(user) && AT !in user && Plain(a) && AT !in a && b != [] && Delimiter(b[0])
    requires QUESTION !in b + [AT] + host + remainder
    ensures var raw := POSTGRES + (user + [COLON] + a) + (b + [AT] + host + remainder);
      IsUrl(raw) && Shown(raw) == raw
  {
    PostgresScheme();
    RawDelimiterShown(POSTGRES, user, a, b, host, remainder);
    NoQuery(b + [AT] + host + remainder);
    UrlStart(user + [COLON] + a, b + [AT] + host + remainder);
  }

  /** postgres://u:p/w@h/d is printed as it is. */
  lemma RawSlashShown()
    ensures var raw := POSTGRES + ([117] + [COLON] + [112]) + ([SLASH, 119] + [AT] + [104] + [SLASH, 100]);
      IsUrl(raw) && Shown(raw) == raw
  {
    RawPasswordShown([117], [112], [SLASH, 119], [104], [SLASH, 100]);
  }

  lemma NoQuery(remainder: Bytes)
    requires QUESTION !in remainder
    ensures ShownRemainder(remainder) == remainder
  {
    IndexIn(remainder, QUESTION, []);
    assert remainder + [] == remainder;
  }

  lemma UrlStart(x: Bytes, y: Bytes)
    ensures IsUrl(POSTGRES + x + y)
  {
    var raw := POSTGRES + x + y;
    assert forall i :: 0 <= i < |POSTGRES| ==> raw[i] == POSTGRES[i];
  }

  lemma PostgresScheme()
    ensures SchemeEnd(POSTGRES) == |POSTGRES| == 11
  {
    assert POSTGRES[8..] == [COLON, SLASH, SLASH];
    NoScheme(POSTGRES, 8);
  }

  lemma {:induction false} NoScheme(raw: Bytes, n: nat)
    requires n < |raw| && SchemeEnd(raw[n..]) > 0 && COLON !in raw[..n]
    ensures SchemeEnd(raw) == n + SchemeEnd(raw[n..])
  {
    if n == 0 {
      assert raw[0..] == raw;
    } else {
      assert raw[1..][n - 1..] == raw[n..];
      assert raw[..n][0] == raw[0] && raw[1..][..n - 1] == raw[..n][1..];
      NoScheme(raw[1..], n - 1);
    }
  }

  /** The part of a password before its first slash, question mark or hash. */
  lemma {:induction false} AuthorityEndFinds(s: Bytes)
    ensures Plain(s[..AuthorityEnd(s)])
    ensures AuthorityEnd(s) < |s| ==> Delimiter(s[AuthorityEnd(s)])
    ensures Plain(s) <==> AuthorityEnd(s) == |s|
  {
    if s != [] && !Delimiter(s[0]) {
      AuthorityEndFinds(s[1..]);
      assert s[..AuthorityEnd(s)] == [s[0]] + s[1..][..AuthorityEnd(s[1..])];
      assert s == [s[0]] + s[1..];
    }
  }

  lemma RemainderStart(remainder: Bytes)
    requires remainder != []
    ensures ShownRemainder(remainder) != [] && ShownRemainder(remainder)[0] == remainder[0]
  {
  }

  /** After the user's colon the masked form has three stars and an at sign; the other has bytes that
      are no at sign and then the delimiter. */
  lemma StarsDiffer(front: Bytes, a: Bytes, shown: Bytes, tail: Bytes)
    requires AT !in a && shown != [] && Delimiter(shown[0])
    ensures front + a + shown != front + STARS + [AT] + tail
  {
    var x, y := front + a + shown, front + STARS + [AT] + tail;
    assert x[|front|..] == a + shown && y[|front|..] == STARS + [AT] + tail;
    var k := if |a| < 3 then |a| else 3;
    assert (a + shown)[k] == if k < |a| then a[k] else shown[0];
  }

  /** The password of a URL is hidden exactly if it has no slash, question mark or hash, when no at sign
      stands before the first of them. Where one does, what follows it is taken for the host, and
      PasswordHidden says what is printed. */
  lemma PasswordHiddenIff(scheme: Bytes, user: Bytes, password: Bytes, host: Bytes, remainder: Bytes)
    requires SchemeEnd(scheme) == |scheme| > 0 && Plain(user) && COLON !in user && AT !in user
    requires AT !in password[..AuthorityEnd(password)] || Plain(password)
    requires Plain(host) && AT !in host && (remainder == [] || Delimiter(remainder[0]))
    ensures Shown(scheme + (Userinfo(user, Some(password)) + [AT] + host) + remainder) == Masked(scheme, user, host, remainder)
      <==> forall i :: 0 <= i < |password| ==> password[i] != 47 && password[i] != 63 && password[i] != 35
  {
    PlainIs(password);
    MaskedIffPlain(scheme, user, password, host, remainder);
  }

  lemma PlainIs(s: Bytes)
    ensures Plain(s) <==> forall i :: 0 <= i < |s| ==> s[i] != 47 && s[i] != 63 && s[i] != 35
  {
  }

  lemma MaskedIffPlain(scheme: Bytes, user: Bytes, password: Bytes, host: Bytes, remainder: Bytes)
    requires SchemeEnd(scheme) == |scheme| > 0 && Plain(user) && COLON !in user && AT !in user
    requires AT !in password[..AuthorityEnd(password)] || Plain(password)
    requires Plain(host) && AT !in host && (remainder == [] || Delimiter(remainder[0]))
    ensures Shown(scheme + (Userinfo(user, Some(password)) + [AT] + host) + remainder) == Masked(scheme, user, host, remainder)
      <==> Plain(password)
  {
    AuthorityEndFinds(password);
    if Plain(password) {
      PasswordHidden(scheme, user, Some(password), host, remainder);
    } else {
      var n := AuthorityEnd(password);
      var a, b := password[..n], password[n..];
      assert password == a + b;
      assert b[0] == password[n];
      RawNotMasked(scheme, user, a, b, host, remainder);
    }
  }

  lemma RawNotMasked(scheme: Bytes, user: Bytes, a: Bytes, b: Bytes, host: Bytes, remainder: Bytes)
    requires SchemeEnd(scheme) == |scheme| > 0 && Plain(user) && AT !in user
    requires Plain(a) && AT !in a && b != [] && Delimiter(b[0])
    ensures Shown(scheme + (Userinfo(user, Some(a + b)) + [AT] + host) + remainder) != Masked(scheme, user, host, remainder)
  {
    Regroup(scheme, user, a, b, host, remainder);
    RawDelimiterShown(scheme, user, a, b, host, remainder);
    SameStart(b, [AT], host, remainder);
    RawDiffers(scheme, user, a, b + [AT] + host + remainder, host, remainder);
  }

  lemma Regroup(scheme: Bytes, user: Bytes, a: Bytes, b: Bytes, host: Bytes, remainder: Bytes)
    ensures scheme + (Userinfo(user, Some(a + b)) + [AT] + host) + remainder
         == scheme + (user + [COLON] + a) + (b + [AT] + host + remainder)
  {
    Reassociate(user + [COLON], a, b);
    var front, tail := user + [COLON] + a, [AT] + host;
    Reassociate(front + b, [AT], host);
    Reassociate(front, b, tail);
    Reassociate(scheme, front, b + tail);
    Reassociate(scheme + front, b + tail, remainder);
    Reassociate(b, [AT], host);
  }

  lemma RawDiffers(scheme: Bytes, user: Bytes, a: Bytes, b: Bytes, host: Bytes, remainder: Bytes)
    requires AT !in a && b != [] && Delimiter(b[0])
    ensures scheme + (user + [COLON] + a) + ShownRemainder(b) != Masked(scheme, user, host, remainder)
  {
    RemainderStart(b);
    var shown, tail := ShownRemainder(b), ShownRemainder(remainder);
    if user == [] {
      StarsDiffer(scheme, [COLON] + a, shown, host + tail);
      NoUser(scheme, a, shown);
      Regroup4(scheme, STARS, [AT], host, tail);
      assert [] + STARS == STARS;
    } else {
      var front := scheme + (user + [COLON]);
      StarsDiffer(front, a, shown, host + tail);
      Reassociate(scheme, user + [COLON], a);
      Regroup4(scheme, user + [COLON] + STARS, [AT], host, tail);
      Reassociate(scheme, user + [COLON], STARS);
    }
  }

  lemma NoUser(scheme: Bytes, a: Bytes, shown: Bytes)
    ensures scheme + ([] + [COLON] + a) + shown == scheme + ([COLON] + a) + shown
  {
    assert [] + [COLON] == [COLON];
  }

  lemma Regroup4(a: Bytes, b: Bytes, c: Bytes, d: Bytes, e: Bytes)
    ensures a + (b + c + d) + e == a + b + c + (d + e)
  {
    Reassociate(a, b + c, d);
    Reassociate(a, b, c);
    Reassociate(a + b + c, d, e);
  }

  // ---------- the query ----------

  lemma CutRemainder(path: Bytes, query: Bytes, fragment: Bytes)
    requires QUESTION !in path && HASH !in query && (fragment == [] || fragment[0] == HASH)
    ensures ShownRemainder(path + [QUESTION] + query + fragment) == path + [QUESTION] + ShownQuery(query) + fragment
  {
    var r := path + [QUESTION] + query + fragment;
    IndexIn(path, QUESTION, [QUESTION] + query + fragment);
    assert path + ([QUESTION] + query + fragment) == r;
    assert r[|path| + 1..] == query + fragment;
    IndexIn(query, HASH, fragment);
    var end := |path| + 1 + |query|;
    assert r[..|path| + 1] == path + [QUESTION] && r[|path| + 1..end] == query && r[end..] == fragment;
  }

  /** before is empty or ends at an ampersand, after is empty or starts with one. */
  predicate Beside(before: Bytes, after: Bytes) {
    && (before == [] || before[|before| - 1] == AMPERSAND) && (after == [] || after[0] == AMPERSAND)
  }

  function Lead(before: Bytes): Bytes {
    if before == [] then [] else ShownQuery(before[..|before| - 1]) + [AMPERSAND]
  }

  function Trail(after: Bytes): Bytes {
    if after == [] then [] else [AMPERSAND] + ShownQuery(after[1..])
  }

  lemma LeadIn(before: Bytes, rest: Bytes)
    requires before == [] || before[|before| - 1] == AMPERSAND
    ensures ShownQuery(before + rest) == Lead(before) + ShownQuery(rest)
  {
    if before == [] {
      assert before + rest == rest;
    } else {
      QueryIn(before[..|before| - 1], rest);
      assert before == before[..|before| - 1] + [AMPERSAND];
    }
  }

  lemma TrailIn(part: Bytes, after: Bytes)
    requires AMPERSAND !in part && (after == [] || after[0] == AMPERSAND)
    ensures ShownQuery(part + after) == ShownPart(part) + Trail(after)
  {
    OneParameter(part);
    if after == [] {
      assert part + after == part;
    } else {
      QueryIn(part, after[1..]);
      assert after == [AMPERSAND] + after[1..];
      Reassociate(part, [AMPERSAND], after[1..]);
      Reassociate(ShownPart(part), [AMPERSAND], ShownQuery(after[1..]));
    }
  }

  /** What stands around one parameter is shown the same whatever that parameter is. */
  lemma ParameterIn(before: Bytes, part: Bytes, after: Bytes)
    requires Beside(before, after) && AMPERSAND !in part
    ensures ShownQuery(before + part + after) == Lead(before) + (ShownPart(part) + Trail(after))
  {
    Reassociate(before, part, after);
    LeadIn(before, part + after);
    TrailIn(part, after);
  }

  /** The value of a query parameter whose key is secret once decoded, or cannot be decoded, does not
      reach the output, wherever it stands and whatever stands around it. */
  lemma SecretParameterHidden(path: Bytes, before: Bytes, key: Bytes, v: Bytes, w: Bytes, after: Bytes, fragment: Bytes)
    requires QUESTION !in path && (fragment == [] || fragment[0] == HASH)
    requires Beside(before, after) && HASH !in before + key + after
    requires EQUALS !in key && AMPERSAND !in key && Hidden(key)
    requires AMPERSAND !in v && HASH !in v && AMPERSAND !in w && HASH !in w
    ensures ShownRemainder(path + [QUESTION] + (before + (key + [EQUALS] + v) + after) + fragment)
         == ShownRemainder(path + [QUESTION] + (before + (key + [EQUALS] + w) + after) + fragment)
  {
    HiddenPart(key, v);
    HiddenPart(key, w);
    CutRemainder(path, before + (key + [EQUALS] + v) + after, fragment);
    CutRemainder(path, before + (key + [EQUALS] + w) + after, fragment);
    ParameterIn(before, key + [EQUALS] + v, after);
    ParameterIn(before, key + [EQUALS] + w, after);
  }

  lemma HiddenPart(key: Bytes, v: Bytes)
    requires EQUALS !in key && Hidden(key)
    ensures ShownPart(key + [EQUALS] + v) == key + [EQUALS] + STARS
  {
    var part := key + [EQUALS] + v;
    IndexIn(key, EQUALS, [EQUALS] + v);
    assert key + ([EQUALS] + v) == part && part[..|key|] == key;
  }

  /** A query none of whose keys is hidden is shown as it is. */
  lemma OpenQueryShown(query: Bytes)
    requires forall p :: p in Split(query, AMPERSAND) && IndexOf(p, EQUALS) < |p| ==> !Hidden(p[..IndexOf(p, EQUALS)])
    ensures ShownQuery(query) == query
  {
    var parts := Split(query, AMPERSAND);
    forall i | 0 <= i < |parts| ensures ShownPart(parts[i]) == parts[i] {
      assert parts[i] in parts;
    }
    assert ShownParts(parts) == parts;
    JoinSplit(query, AMPERSAND);
  }
}
