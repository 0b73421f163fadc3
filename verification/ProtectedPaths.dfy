/** Which changed paths a task's protected patterns claim (internal/verification/protected.go). */
module ProtectedPaths {
  import opened Common
  import GlobWitness
  import Sorting

  datatype Violation = Violation(pattern: string, path: string)

  /** A path as git reports it: relative, without empty, "." or ".." elements; a directory that
      git did not list inside ends in a slash. */
  predicate GitPath(p: string) {
    var base := TrimSlash(p);
    base != "" && Clean(base)
  }

  predicate Clean(p: string) {
    forall seg :: seg in GlobWitness.Split(p) ==> seg != "" && seg != "." && seg != ".."
  }

  function TrimSlash(p: string): string {
    if p != "" && p[|p| - 1] == '/' then p[..|p| - 1] else p
  }

  function Normalize(raw: string): string {
    TrimSlash(TrimSpace(raw))
  }

  /** doublestar's two questions, asked of any pattern and text; matching that fails to parse
      counts as a match. */
  datatype Glob = Glob(valid: string -> bool, matches: (string, string) -> bool) {
    predicate Hits(pattern: string, subject: string) {
      if '/' in pattern then matches(pattern, subject) else matches(pattern, Base(subject))
    }
  }

  // ---------- ancestors ----------

  /** The directory of a clean relative path. */
  function Dir(p: string): (d: string)
    ensures |d| < |p| || d == "."
  {
    var i := LastSlash(p);
    if i < 0 then "." else p[..i]
  }

  function LastSlash(p: string): (i: int)
    ensures -1 <= i < |p|
    ensures i >= 0 ==> p[i] == '/' && '/' !in p[i + 1..]
    ensures i < 0 ==> '/' !in p
  {
    if p == "" then -1
    else if p[|p| - 1] == '/' then |p| - 1
    else
      var front := p[..|p| - 1];
      assert p == front + [p[|p| - 1]];
      LastSlash(front)
  }

  /** p lies beneath the directory a. */
  predicate Beneath(p: string, a: string) {
    a != "" && |a| < |p| && p[..|a|] == a && p[|a|] == '/'
  }

  /** d and everything above it, deepest first. */
  function AncestorsFrom(d: string): seq<string>
    decreases |d|
  {
    if NoDir(d) then []
    else if |Dir(d)| < |d| then [d] + AncestorsFrom(Dir(d))
    else [d]
  }

  predicate NoDir(d: string) { d == "." || d == "/" || d == "" }

  lemma NextAncestor(d: string)
    requires !NoDir(d)
    ensures AncestorsFrom(d) == [d] + AncestorsFrom(Dir(d))
    ensures |Dir(d)| < |d| || Dir(d) == "."
  {
    assert [d] + [] == [d];
  }

  /** The source's loop over path.Dir. */
  method Climb(from: string) returns (dirs: seq<string>)
    ensures dirs == AncestorsFrom(from)
  {
    dirs := [];
    var d := from;
    while !NoDir(d)
      invariant dirs + AncestorsFrom(d) == AncestorsFrom(from)
      decreases d != ".", |d|
    {
      NextAncestor(d);
      Reassociate(dirs, [d], AncestorsFrom(Dir(d)));
      dirs := dirs + [d];
      d := Dir(d);
    }
    assert dirs + [] == dirs;
  }

  method Ancestors(p: string) returns (dirs: seq<string>)
    requires p != "" && Clean(p)
    ensures forall a :: a in dirs <==> Beneath(p, a)
  {
    dirs := Climb(Dir(p));
    AncestorsAre(p);
  }

  lemma {:induction false} SplitAt(a: string, b: string)
    ensures GlobWitness.Split(a + "/" + b) == GlobWitness.Split(a) + GlobWitness.Split(b)
  {
    var p := a + "/" + b;
    if a == "" {
      assert p[0] == '/' && p[1..] == b;
    } else {
      assert p[0] == a[0] && p[1..] == a[1..] + "/" + b;
      SplitAt(a[1..], b);
    }
  }

  /** The directory of a clean path is clean, or there is none. */
  lemma DirClean(p: string)
    requires p != "" && Clean(p)
    ensures '/' in p ==> Clean(Dir(p)) && Dir(p) != "." && Dir(p) != "/" && Dir(p) != ""
    ensures '/' in p ==> p == Dir(p) + "/" + p[|Dir(p)| + 1..] && '/' !in p[|Dir(p)| + 1..]
  {
    if '/' in p {
      var i := LastSlash(p);
      var d, last := p[..i], p[i + 1..];
      assert p == d + "/" + last;
      SplitAt(d, last);
      assert forall seg :: seg in GlobWitness.Split(d) ==> seg in GlobWitness.Split(p);
      assert GlobWitness.Split(d)[0] in GlobWitness.Split(d);
      TrivialSplits();
    }
  }

  lemma TrivialSplits()
    ensures GlobWitness.Split("") == [""]
    ensures GlobWitness.Split(".") == ["."]
    ensures GlobWitness.Split("/") == ["", ""]
  {
    GlobWitness.SplitSegment(".", "");
    GlobWitness.SplitSegment("", "");
    assert "" + "/" + "" == "/";
  }

  /** What lies above the last element of a path. */
  lemma BeneathLast(d: string, last: string, a: string)
    requires d != "" && '/' !in last
    ensures Beneath(d + "/" + last, a) <==> a == d || Beneath(d, a)
  {
    var p := d + "/" + last;
    if |a| <= |d| {
      assert p[..|a|] == d[..|a|];
    } else if |a| < |p| {
      assert p[|a|] == last[|a| - |d| - 1];
    }
  }

  lemma {:induction false} AncestorsAre(p: string)
    requires p != "" && Clean(p)
    ensures forall a :: a in AncestorsFrom(Dir(p)) <==> Beneath(p, a)
    decreases |p|
  {
    if '/' in p {
      DirClean(p);
      var d := Dir(p);
      AncestorsAre(d);
      forall a ensures Beneath(p, a) <==> a == d || Beneath(d, a) {
        BeneathLast(d, p[|d| + 1..], a);
      }
    } else {
      assert Dir(p) == ".";
      forall a ensures !Beneath(p, a) { }
    }
  }

  // ---------- claiming ----------

  predicate HasPrefix(s: string, prefix: string) {
    |prefix| <= |s| && s[..|prefix|] == prefix
  }

  /** A pattern claims a changed path when it matches the entry, any directory above it, or, for a
      directory git did not list inside, a stand-in for its contents. */
  ghost predicate Claims(g: Glob, pattern: string, changed: string) {
    var base := TrimSlash(changed);
    || g.Hits(pattern, changed)
    || (exists a :: Beneath(base, a) && g.Hits(pattern, a))
    || (base != changed && ClaimsInside(g, pattern, base))
  }

  predicate ClaimsInside(g: Glob, pattern: string, base: string) {
    var probe, concrete := GlobWitness.PROBE, GlobWitness.Resolved(pattern);
    || g.Hits(pattern, base)
    || g.Hits(pattern, base + "/" + probe)
    || g.Hits(pattern, base + "/" + probe + "/" + probe)
    || (concrete != pattern && (concrete == base || HasPrefix(concrete, base + "/")) && g.Hits(pattern, concrete))
  }

  method MatchesProtected(g: Glob, pattern: string, concrete: string, changed: string) returns (hit: bool)
    requires GitPath(changed) && concrete == GlobWitness.Resolved(pattern)
    ensures hit <==> Claims(g, pattern, changed)
  {
    var base := TrimSlash(changed);
    if base == "" {
      return false;
    }
    var subjects := [changed];
    AnyOf(g, pattern, changed);
    if base != changed {
      var probe := GlobWitness.PROBE;
      ghost var was := subjects;
      subjects := subjects + [base, base + "/" + probe, base + "/" + probe + "/" + probe];
      AnyJoined(g, pattern, was, [base, base + "/" + probe, base + "/" + probe + "/" + probe]);
      AnyOfThree(g, pattern, base, base + "/" + probe, base + "/" + probe + "/" + probe);
      if concrete != pattern && (concrete == base || HasPrefix(concrete, base + "/")) {
        AnyJoined(g, pattern, subjects, [concrete]);
        AnyOf(g, pattern, concrete);
        subjects := subjects + [concrete];
      }
    }
    assert AnyHits(g, pattern, subjects) <==> g.Hits(pattern, changed) || (base != changed && ClaimsInside(g, pattern, base));
    hit := AnyHit(g, pattern, subjects);
    if hit {
      return;
    }
    var dirs := Ancestors(base);
    hit := AnyHit(g, pattern, dirs);
  }

  ghost predicate AnyHits(g: Glob, pattern: string, subjects: seq<string>) {
    exists s :: s in subjects && g.Hits(pattern, s)
  }

  lemma AnyJoined(g: Glob, pattern: string, a: seq<string>, b: seq<string>)
    ensures AnyHits(g, pattern, a + b) <==> AnyHits(g, pattern, a) || AnyHits(g, pattern, b)
  {
    assert forall s :: s in a + b <==> s in a || s in b;
  }

  lemma AnyOf(g: Glob, pattern: string, x: string)
    ensures AnyHits(g, pattern, [x]) <==> g.Hits(pattern, x)
  {
    assert forall s :: s in [x] <==> s == x;
  }

  lemma AnyOfThree(g: Glob, pattern: string, x: string, y: string, z: string)
    ensures AnyHits(g, pattern, [x, y, z]) <==> g.Hits(pattern, x) || g.Hits(pattern, y) || g.Hits(pattern, z)
  {
    assert forall s :: s in [x, y, z] <==> s == x || s == y || s == z;
  }

  method AnyHit(g: Glob, pattern: string, subjects: seq<string>) returns (hit: bool)
    ensures hit <==> AnyHits(g, pattern, subjects)
  {
    for i := 0 to |subjects|
      invariant forall j :: 0 <= j < i ==> !g.Hits(pattern, subjects[j])
    {
      if g.Hits(pattern, subjects[i]) {
        return true;
      }
    }
    return false;
  }

  // ---------- patterns with and without a slash ----------

  /** The element a path ends with. */
  lemma {:induction false} LastElement(dir: string, last: string)
    requires '/' !in last && last != ""
    ensures Base(dir + "/" + last) == last && Base(last) == last
  {
    EndsIn(dir + "/", last);
    EndsIn("", last);
    LastIsBase(dir + "/" + last);
    LastIsBase(last);
    assert "" + last == last;
  }

  lemma LastIsBase(p: string)
    requires p != "" && p[|p| - 1] != '/'
    ensures Base(p) == AfterSlash(p)
  {
  }

  lemma NextChar(p: string, c: char)
    requires c != '/'
    ensures AfterSlash(p + [c]) == AfterSlash(p) + [c]
  {
    assert (p + [c])[..|p|] == p;
  }

  lemma NothingAfterSlash(front: string)
    requires front == "" || front[|front| - 1] == '/'
    ensures AfterSlash(front) == ""
  {
  }

  lemma {:induction false} EndsIn(front: string, last: string)
    requires '/' !in last && (front == "" || front[|front| - 1] == '/')
    ensures AfterSlash(front + last) == last
    decreases |last|
  {
    if last == "" {
      assert front + last == front;
      NothingAfterSlash(front);
    } else {
      var n := |last| - 1;
      var init, c := last[..n], last[n];
      assert last == init + [c];
      EndsIn(front, init);
      NextChar(front + init, c);
      Reassociate(front, init, [c]);
    }
  }

  /** A pattern without a slash names a path at any depth: it claims every entry whose last element it
      matches, and everything beneath such a directory. */
  lemma UnanchoredAtAnyDepth(g: Glob, pattern: string, dir: string, last: string, changed: string)
    requires '/' !in pattern && '/' !in last && last != "" && g.matches(pattern, last)
    requires
      || changed == last || changed == dir + "/" + last
      || Beneath(TrimSlash(changed), last) || Beneath(TrimSlash(changed), dir + "/" + last)
    ensures Claims(g, pattern, changed)
  {
    LastElement(dir, last);
  }

  /** Of an entry git lists by name, a pattern without a slash claims nothing else: it matches some element
      of its path. */
  lemma UnanchoredIff(g: Glob, pattern: string, changed: string)
    requires '/' !in pattern && changed != "" && Clean(changed)
    ensures Claims(g, pattern, changed) <==> exists element :: element in GlobWitness.Split(changed) && g.matches(pattern, element)
  {
    assert TrimSlash(changed) == changed by {
      NoTrailingSlash(changed);
    }
    AnyElement(g, pattern, changed);
  }

  lemma NoTrailingSlash(p: string)
    requires p != "" && Clean(p)
    ensures p[|p| - 1] != '/'
  {
    if p[|p| - 1] == '/' {
      var d := p[..|p| - 1];
      assert p == d + "/" + "";
      LastNotEmpty(p, d, "");
    }
  }

  ghost predicate AnyElementHits(g: Glob, pattern: string, p: string) {
    exists element :: element in GlobWitness.Split(p) && g.matches(pattern, element)
  }

  ghost predicate AnyAboveHits(g: Glob, pattern: string, p: string) {
    exists a :: Beneath(p, a) && g.Hits(pattern, a)
  }

  lemma ElementsOf(g: Glob, pattern: string, d: string, last: string)
    requires '/' !in last
    ensures AnyElementHits(g, pattern, last) <==> g.matches(pattern, last)
    ensures AnyElementHits(g, pattern, d + "/" + last) <==> AnyElementHits(g, pattern, d) || g.matches(pattern, last)
  {
    SplitAt(d, last);
    GlobWitness.SplitSegment(last, "");
    var p := d + "/" + last;
    assert forall element :: element in GlobWitness.Split(p) <==> element in GlobWitness.Split(d) || element == last;
    assert last in GlobWitness.Split(last) && last in GlobWitness.Split(p);
  }

  lemma AboveOf(g: Glob, pattern: string, d: string, last: string)
    requires d != "" && '/' !in last
    ensures AnyAboveHits(g, pattern, d + "/" + last) <==> g.Hits(pattern, d) || AnyAboveHits(g, pattern, d)
  {
    var p := d + "/" + last;
    forall a ensures Beneath(p, a) <==> a == d || Beneath(d, a) {
      BeneathLast(d, last, a);
    }
  }

  lemma {:induction false} AnyElement(g: Glob, pattern: string, p: string)
    requires '/' !in pattern && p != "" && Clean(p)
    ensures AnyElementHits(g, pattern, p) <==> g.Hits(pattern, p) || AnyAboveHits(g, pattern, p)
    decreases |p|
  {
    if '/' in p {
      DirClean(p);
      var d, last := Dir(p), p[|Dir(p)| + 1..];
      AnyElement(g, pattern, d);
      ElementsOf(g, pattern, d, last);
      AboveOf(g, pattern, d, last);
      LastNotEmpty(p, d, last);
      LastElement(d, last);
    } else {
      ElementsOf(g, pattern, "", p);
      LastElement("", p);
    }
  }

  lemma LastNotEmpty(p: string, d: string, last: string)
    requires Clean(p) && p == d + "/" + last && '/' !in last
    ensures last != ""
  {
    SplitAt(d, last);
    GlobWitness.SplitSegment(last, "");
    assert last in [last];
    assert last in GlobWitness.Split(p);
  }

  /** A pattern with a slash is anchored at the root: of an entry git lists by name it claims what it matches,
      and everything beneath. */
  lemma AnchoredIff(g: Glob, pattern: string, changed: string)
    requires '/' in pattern && changed != "" && Clean(changed)
    ensures Claims(g, pattern, changed)
      <==> g.matches(pattern, changed) || exists a :: Beneath(changed, a) && g.matches(pattern, a)
  {
    NoTrailingSlash(changed);
  }

  /** Of a directory git reports without its contents, a pattern is asked about the entry itself, the
      directory, those above it, two stand-ins for its contents, and the concrete path of a pattern with
      wildcards, if that is the directory or lies in it. */
  predicate Asked(pattern: string, base: string, s: string) {
    || s == base + "/" || s == base || Beneath(base, s)
    || s == base + "/" + "__aidev_protected_probe__"
    || s == base + "/" + "__aidev_protected_probe__" + "/" + "__aidev_protected_probe__"
    || (s == GlobWitness.Resolved(pattern) && s != pattern && (s == base || (|s| > |base| && s[..|base| + 1] == base + "/")))
  }

  /** A pattern with a slash claims it by any of these paths, one without by the last element of any. */
  lemma CollapsedIff(g: Glob, pattern: string, base: string)
    requires base != ""
    ensures '/' in pattern ==>
      (Claims(g, pattern, base + "/") <==> exists s :: Asked(pattern, base, s) && g.matches(pattern, s))
    ensures '/' !in pattern ==>
      (Claims(g, pattern, base + "/") <==> exists s :: Asked(pattern, base, s) && g.matches(pattern, Base(s)))
  {
    assert TrimSlash(base + "/") == base;
    AskedHits(g, pattern, base);
  }

  lemma AskedHits(g: Glob, pattern: string, base: string)
    ensures
      var concrete := GlobWitness.Resolved(pattern);
      (g.Hits(pattern, base + "/") || AnyAboveHits(g, pattern, base) || ClaimsInside(g, pattern, base))
      <==> exists s :: Asked(pattern, base, s) && g.Hits(pattern, s)
  {
    var concrete := GlobWitness.Resolved(pattern);
    PrefixIs(concrete, base);
    var probe := GlobWitness.PROBE;
    if g.Hits(pattern, base + "/" + probe) {
      assert Asked(pattern, base, base + "/" + probe);
    }
    if g.Hits(pattern, base + "/" + probe + "/" + probe) {
      assert Asked(pattern, base, base + "/" + probe + "/" + probe);
    }
    assert Asked(pattern, base, base + "/") && Asked(pattern, base, base);
    if ClaimsInside(g, pattern, base) && concrete != pattern && HasPrefix(concrete, base + "/") {
      assert Asked(pattern, base, concrete);
    }
    forall s | Asked(pattern, base, s) && g.Hits(pattern, s)
      ensures g.Hits(pattern, base + "/") || AnyAboveHits(g, pattern, base) || ClaimsInside(g, pattern, base)
    {
    }
  }

  lemma PrefixIs(s: string, base: string)
    ensures HasPrefix(s, base + "/") <==> |s| > |base| && s[..|base| + 1] == base + "/"
  {
  }

  /** A stored pattern is taken without the white space around it, and without one slash at its end. */
  lemma NormalizeIs(raw: string) returns (i: nat, j: nat)
    ensures i <= j <= |raw| && forall k :: 0 <= k < i || j <= k < |raw| ==> Space(raw[k])
    ensures i < j ==> !Space(raw[i]) && !Space(raw[j - 1])
    ensures Normalize(raw) == if i < j && raw[j - 1] == '/' then raw[i..j - 1] else raw[i..j]
  {
    i, j := Trimmed(raw);
    assert raw[i..j] == TrimSpace(raw);
    if i < j {
      LastOfSlice(raw, i, j);
    }
  }

  lemma LastOfSlice(s: string, i: nat, j: nat)
    requires i < j <= |s|
    ensures var t := s[i..j]; |t| == j - i && t[|t| - 1] == s[j - 1] && t[..|t| - 1] == s[i..j - 1]
  {
  }

  lemma {:induction false} Trimmed(s: string) returns (i: nat, j: nat)
    ensures i <= j <= |s| && s[i..j] == TrimSpace(s)
    ensures forall k :: 0 <= k < i || j <= k < |s| ==> Space(s[k])
    ensures i < j ==> !Space(s[i]) && !Space(s[j - 1])
    decreases |s|
  {
    if s != "" && Space(s[0]) {
      i, j := Trimmed(s[1..]);
      assert s[1..][i..j] == s[i + 1..j + 1];
      forall k | 0 <= k < i + 1 || j + 1 <= k < |s| ensures Space(s[k]) {
        assert k > 0 ==> s[k] == s[1..][k - 1];
      }
      i, j := i + 1, j + 1;
    } else if s != "" && Space(s[|s| - 1]) {
      var front := s[..|s| - 1];
      i, j := Trimmed(front);
      assert front[i..j] == s[i..j];
      forall k | 0 <= k < i || j <= k < |s| ensures Space(s[k]) {
        assert k < |front| ==> s[k] == front[k];
      }
    } else {
      i, j := 0, |s|;
      assert s[0..|s|] == s;
    }
  }

  // ---------- the report ----------

  predicate Before(a: Violation, b: Violation) {
    Sorting.Less(a.pattern, b.pattern) || (a.pattern == b.pattern && Sorting.Less(a.path, b.path))
  }

  lemma BeforeStrictTotal()
    ensures Sorting.StrictTotal(Before)
  {
    Sorting.LessStrictTotal();
  }

  /** The pairs a report must hold. */
  ghost predicate Reported(g: Glob, patterns: seq<string>, changed: seq<string>, v: Violation) {
    v.pattern in patterns && v.path in changed && Claims(g, Normalize(v.pattern), v.path)
  }

  method Violations(g: Glob, patterns: seq<string>, changed: seq<string>)
    returns (r: Result<seq<Violation>, string>)
    requires forall c :: c in changed ==> GitPath(c)
    ensures r.Ok? <==> forall p :: p in patterns ==> Normalize(p) != "" && g.valid(Normalize(p))
    ensures r.Err? ==> r.error in patterns && (Normalize(r.error) == "" || !g.valid(Normalize(r.error)))
    ensures r.Ok? ==> Sorting.Strict(Before, r.value)
    ensures r.Ok? ==> forall v :: v in r.value <==>
      v.pattern in patterns && v.path in changed && Claims(g, Normalize(v.pattern), v.path)
  {
    var out: seq<Violation> := [];
    for i := 0 to |patterns|
      invariant forall p :: p in patterns[..i] ==> Normalize(p) != "" && g.valid(Normalize(p))
      invariant forall v :: v in out <==> Reported(g, patterns[..i], changed, v)
    {
      var stored := patterns[i];
      var p := Normalize(stored);
      assert stored in patterns;
      if p == "" || !g.valid(p) {
        return Err(stored);
      }
      var concrete := GlobWitness.ResolveMagic(p);
      var claimed := ClaimedBy(g, stored, concrete, changed);
      out := out + claimed;
      assert patterns[..i + 1] == patterns[..i] + [stored];
    }
    assert patterns[..|patterns|] == patterns;
    if |out| == 0 {
      return Ok([]);
    }
    var compact := SortedAndCompact(out);
    return Ok(compact);
  }

  /** The inner loop: what one pattern claims. */
  method ClaimedBy(g: Glob, stored: string, concrete: string, changed: seq<string>) returns (out: seq<Violation>)
    requires (forall c :: c in changed ==> GitPath(c)) && concrete == GlobWitness.Resolved(Normalize(stored))
    ensures forall v :: v in out <==> v.pattern == stored && v.path in changed && Claims(g, Normalize(stored), v.path)
  {
    out := [];
    for k := 0 to |changed|
      invariant forall v :: v in out <==>
        v.pattern == stored && v.path in changed[..k] && Claims(g, Normalize(stored), v.path)
    {
      assert changed[k] in changed;
      var hit := MatchesProtected(g, Normalize(stored), concrete, changed[k]);
      if hit {
        out := out + [Violation(stored, changed[k])];
      }
      assert changed[..k + 1] == changed[..k] + [changed[k]];
    }
    assert changed[..|changed|] == changed;
  }

  method SortedAndCompact(out: seq<Violation>) returns (report: seq<Violation>)
    ensures Sorting.Strict(Before, report) && forall v :: v in report <==> v in out
  {
    BeforeStrictTotal();
    Sorting.SortSorts(Before, out);
    var sorted := Sorting.Sort(Before, out);
    assert forall v :: v in out <==> v in multiset(out);
    assert forall v :: v in sorted <==> v in multiset(sorted);
    report := Compact(sorted);
  }

  /** slices.CompactFunc after sorting: equal neighbours collapse. */
  method Compact(s: seq<Violation>) returns (out: seq<Violation>)
    requires Sorting.StrictTotal(Before) && Sorting.Sorted(Before, s)
    ensures Sorting.Strict(Before, out)
    ensures forall v :: v in out <==> v in s
  {
    out := [];
    for i := 0 to |s|
      invariant Sorting.Strict(Before, out)
      invariant forall v :: v in out <==> v in s[..i]
      invariant i == 0 ==> out == []
      invariant i > 0 ==> out != [] && out[|out| - 1] == s[i - 1]
    {
      if i == 0 || out[|out| - 1] != s[i] {
        if i > 0 {
          assert !Before(s[i], s[i - 1]);
        }
        StrictLonger(out, s[i]);
        out := out + [s[i]];
      }
      assert s[..i + 1] == s[..i] + [s[i]];
    }
    assert s[..|s|] == s;
  }

  lemma StrictLonger(out: seq<Violation>, v: Violation)
    requires Sorting.StrictTotal(Before) && Sorting.Strict(Before, out)
    requires out != [] ==> out[|out| - 1] != v && !Before(v, out[|out| - 1])
    ensures Sorting.Strict(Before, out + [v])
  {
    if out != [] {
      var last := out[|out| - 1];
      assert Before(last, v);
      forall j | 0 <= j < |out| ensures Before(out[j], v) {
        assert j < |out| - 1 ==> Before(out[j], last);
      }
    }
  }

  /** The report depends only on which patterns and paths are given, not on their order or
      repetition. */
  lemma ReportUnique(g: Glob, p1: seq<string>, c1: seq<string>, p2: seq<string>, c2: seq<string>,
                     r1: seq<Violation>, r2: seq<Violation>)
    requires forall p :: p in p1 <==> p in p2
    requires forall c :: c in c1 <==> c in c2
    requires Sorting.Strict(Before, r1) && forall v :: v in r1 <==> Reported(g, p1, c1, v)
    requires Sorting.Strict(Before, r2) && forall v :: v in r2 <==> Reported(g, p2, c2, v)
    ensures r1 == r2
  {
    BeforeStrictTotal();
    forall v ensures v in r1 <==> v in r2 {
      assert Reported(g, p1, c1, v) <==> Reported(g, p2, c2, v);
    }
    Sorting.StrictUnique(Before, r1, r2);
  }

  /** A directory git reported without its contents is claimed by every wildcard pattern whose
      concrete path lies in it, when the matcher follows the glob semantics on that pattern. */
  lemma CollapsedClaimed(g: Glob, pattern: seq<seq<GlobWitness.Token>>, base: string)
    requires pattern != []
    requires forall ts :: ts in pattern ==>
      GlobWitness.SegmentOk(ts) && GlobWitness.ClassesAcceptFirstByte(ts)
    requires forall text :: GlobWitness.MatchPath(pattern, GlobWitness.Split(text)) ==>
      g.matches(GlobWitness.RenderPath(pattern), text)
    requires '/' in GlobWitness.RenderPath(pattern)
    requires GlobWitness.Resolved(GlobWitness.RenderPath(pattern)) != GlobWitness.RenderPath(pattern)
    requires HasPrefix(GlobWitness.Resolved(GlobWitness.RenderPath(pattern)), base + "/")
    ensures Claims(g, GlobWitness.RenderPath(pattern), base + "/")
  {
    GlobWitness.ResolvedMatches(pattern);
    assert TrimSlash(base + "/") == base;
  }

  /** What a pattern that matches only itself claims of a collapsed directory. */
  lemma OnlyItself(g: Glob, p: string, base: string, rest: string)
    requires base != "" && p == base + "/" + rest && GlobWitness.Resolved(p) == p
    requires forall text :: g.matches(p, text) <==> text == p
    ensures Claims(g, p, base + "/") <==> Stand(rest)
  {
    assert TrimSlash(base + "/") == base;
    assert p[|base|] == '/';
    assert forall s :: g.Hits(p, s) <==> s == p;
    OnlyItselfInside(g, p, base);
    StandsAre(base, rest);
  }

  lemma OnlyItselfInside(g: Glob, p: string, base: string)
    requires |p| > |base| && GlobWitness.Resolved(p) == p && forall s :: g.Hits(p, s) <==> s == p
    ensures var probe := GlobWitness.PROBE;
      ClaimsInside(g, p, base) <==> p == base + "/" + probe || p == base + "/" + probe + "/" + probe
  {
  }

  lemma StandsAre(base: string, rest: string)
    ensures var p, probe := base + "/" + rest, GlobWitness.PROBE;
      Stand(rest) <==> p == base + "/" || p == base + "/" + probe || p == base + "/" + probe + "/" + probe
  {
    var changed, probe := base + "/", GlobWitness.PROBE;
    Suffix(changed, rest, "");
    Suffix(changed, rest, probe);
    Suffix(changed, rest, probe + "/" + probe);
    Reassociate(changed, probe + "/", probe);
    Reassociate(changed, probe, "/");
    assert changed + "" == changed;
  }

  lemma Suffix(a: string, b: string, c: string)
    ensures a + b == a + c <==> b == c
  {
    assert (a + b)[|a|..] == b && (a + c)[|a|..] == c;
  }

  /** What is asked of a collapsed directory itself: nothing more, or stand-ins for its contents. */
  predicate Stand(rest: string) {
    rest == "" || rest == GlobWitness.PROBE || rest == GlobWitness.PROBE + "/" + GlobWitness.PROBE
  }

  /** A pattern without wildcards is its own concrete path, and then the rule above is not
      applied: a protected file inside a directory git did not list is not claimed. */
  lemma LiteralMissed(g: Glob, base: string, rest: string)
    requires base != "" && !Stand(rest)
    requires !GlobWitness.HasMagic(base + "/" + rest)
    requires forall text :: g.matches(base + "/" + rest, text) <==> text == base + "/" + rest
    ensures !Claims(g, base + "/" + rest, base + "/")
  {
    var p := base + "/" + rest;
    assert p[|base|] == '/';
    ResolvedLiteral(p);
    OnlyItself(g, p, base, rest);
  }

  /** The matcher follows the glob semantics on a pattern. */
  ghost predicate Follows(g: Glob, pattern: seq<seq<GlobWitness.Token>>) {
    forall text :: g.matches(GlobWitness.RenderPath(pattern), text)
      <==> GlobWitness.MatchPath(pattern, GlobWitness.Split(text))
  }

  /** A pattern whose concrete path lies in a directory git reported without its contents claims that
      directory exactly if it has a wildcard, or names a stand-in. */
  lemma CollapsedClaimedIff(g: Glob, pattern: seq<seq<GlobWitness.Token>>, base: string, rest: string)
    requires pattern != []
    requires forall ts :: ts in pattern ==>
      GlobWitness.SegmentOk(ts) && GlobWitness.ClassesAcceptFirstByte(ts)
    requires Follows(g, pattern) && '/' in GlobWitness.RenderPath(pattern)
    requires base != "" && GlobWitness.Resolved(GlobWitness.RenderPath(pattern)) == base + "/" + rest
    ensures Claims(g, GlobWitness.RenderPath(pattern), base + "/")
      <==> GlobWitness.HasMagic(GlobWitness.RenderPath(pattern)) || Stand(rest)
  {
    var p := GlobWitness.RenderPath(pattern);
    assert HasPrefix(base + "/" + rest, base + "/");
    if GlobWitness.HasMagic(p) {
      GlobWitness.MagicIsRewritten(pattern);
      CollapsedClaimed(g, pattern, base);
    } else {
      ResolvedLiteral(p);
      MatchesItself(g, pattern);
      OnlyItself(g, p, base, rest);
    }
  }

  lemma MatchesItself(g: Glob, pattern: seq<seq<GlobWitness.Token>>)
    requires pattern != []
    requires forall ts :: ts in pattern ==>
      GlobWitness.SegmentOk(ts) && GlobWitness.ClassesAcceptFirstByte(ts)
    requires Follows(g, pattern) && !GlobWitness.HasMagic(GlobWitness.RenderPath(pattern))
    ensures forall text ::
      g.matches(GlobWitness.RenderPath(pattern), text) <==> text == GlobWitness.RenderPath(pattern)
  {
    var p := GlobWitness.RenderPath(pattern);
    ResolvedLiteral(p);
    GlobWitness.ResolvedMatches(pattern);
    GlobWitness.LiteralTexts(pattern);
    forall text | g.matches(p, text) ensures text == p {
      GlobWitness.LiteralPath(pattern, GlobWitness.Split(text));
      GlobWitness.LiteralPath(pattern, GlobWitness.Split(p));
      SplitInverse(text);
      SplitInverse(p);
    }
  }

  lemma ResolvedLiteral(p: string)
    requires !GlobWitness.HasMagic(p)
    ensures GlobWitness.Resolved(p) == p
  {
    var segs := GlobWitness.Split(p);
    SplitInverse(p);
    SplitChars(p);
    forall i | 0 <= i < |segs| ensures GlobWitness.Placeholder(segs[i]) == segs[i] {
      assert segs[i] in segs;
      GlobWitness.NoMagic(segs[i]);
    }
    assert GlobWitness.Placeholders(segs) == segs;
  }

  lemma {:induction false} SplitInverse(p: string)
    ensures GlobWitness.Join(GlobWitness.Split(p)) == p
  {
    if p != "" {
      var rest := GlobWitness.Split(p[1..]);
      SplitInverse(p[1..]);
      if p[0] == '/' {
        FirstOf("", rest);
      } else {
        FirstLonger(p[0], rest);
      }
      assert p == [p[0]] + p[1..];
    }
  }

  lemma FirstOf(seg: string, rest: seq<string>)
    requires rest != []
    ensures GlobWitness.Join([seg] + rest) == seg + "/" + GlobWitness.Join(rest)
  {
    assert ([seg] + rest)[1..] == rest;
  }

  lemma FirstLonger(c: char, segs: seq<string>)
    requires segs != []
    ensures GlobWitness.Join([[c] + segs[0]] + segs[1..]) == [c] + GlobWitness.Join(segs)
  {
    var longer := [[c] + segs[0]] + segs[1..];
    assert longer[1..] == segs[1..];
    if |segs| > 1 {
      var tail := GlobWitness.Join(segs[1..]);
      assert [c] + segs[0] + "/" + tail == [c] + (segs[0] + "/" + tail);
    }
  }

  lemma {:induction false} SplitChars(p: string)
    ensures forall seg, c :: seg in GlobWitness.Split(p) && c in seg ==> c in p
  {
    if p != "" {
      SplitChars(p[1..]);
    }
  }
}
