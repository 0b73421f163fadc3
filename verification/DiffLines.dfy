/** The lines a zero-context diff adds, by file and number (internal/coverage/coverage.go:76-111). */
module DiffLines {
  import opened Common

  // ---------- strings ----------

  predicate NoNewline(s: string) { '\n' !in s }

  /** The pieces between newlines; always at least one. */
  function SplitLines(s: string): seq<string> {
    if s == "" then [""]
    else
      var rest := SplitLines(s[1..]);
      if s[0] == '\n' || rest == [] then [""] + rest
      else [[s[0]] + rest[0]] + rest[1..]
  }

  /** Every line followed by a newline. */
  function Text(lines: seq<string>): string {
    if lines == [] then "" else lines[0] + "\n" + Text(lines[1..])
  }

  lemma {:induction false} SplitFirst(line: string, rest: string)
    requires NoNewline(line)
    ensures SplitLines(line + "\n" + rest) == [line] + SplitLines(rest)
  {
    var s := line + "\n" + rest;
    if line == "" {
      assert s[1..] == rest;
    } else {
      SplitFirst(line[1..], rest);
      assert s[1..] == line[1..] + "\n" + rest;
      assert [line[0]] + line[1..] == line;
    }
  }

  lemma {:induction false} SplitText(lines: seq<string>)
    requires forall i :: 0 <= i < |lines| ==> NoNewline(lines[i])
    ensures SplitLines(Text(lines)) == lines + [""]
  {
    if lines != [] {
      SplitText(lines[1..]);
      SplitFirst(lines[0], Text(lines[1..]));
    }
  }

  /** The length of the prefix without white space. */
  function WordLen(s: string): (n: nat)
    ensures n <= |s|
  {
    if s == "" || Space(s[0]) then 0 else 1 + WordLen(s[1..])
  }

  /** strings.Fields. */
  function Fields(s: string): seq<string>
    decreases |s|
  {
    if s == "" then []
    else if Space(s[0]) then Fields(s[1..])
    else [s[..WordLen(s)]] + Fields(s[WordLen(s)..])
  }

  predicate Word(w: string) { w != "" && forall i :: 0 <= i < |w| ==> !Space(w[i]) }

  lemma {:induction false} WordThenSpace(w: string, rest: string)
    requires forall i :: 0 <= i < |w| ==> !Space(w[i])
    ensures WordLen(w + " " + rest) == |w|
  {
    var s := w + " " + rest;
    if w != "" {
      WordThenSpace(w[1..], rest);
      assert s[1..] == w[1..] + " " + rest;
    }
  }

  lemma FirstField(w: string, rest: string)
    requires Word(w)
    ensures Fields(w + " " + rest) == [w] + Fields(rest)
  {
    var s := w + " " + rest;
    WordThenSpace(w, rest);
    assert s[..|w|] == w && s[|w|..] == " " + rest;
    assert (" " + rest)[1..] == rest;
  }

  /** The part before the first comma. */
  function BeforeComma(s: string): string {
    if s == "" || s[0] == ',' then "" else [s[0]] + BeforeComma(s[1..])
  }

  predicate Digit(c: char) { '0' <= c <= '9' }

  /** The value of a string of digits; None when it is not one. */
  function Decimal(s: string): Option<nat> {
    if s == "" then None
    else if !Digit(s[|s| - 1]) then None
    else
      var low := s[|s| - 1] as int - '0' as int;
      if |s| == 1 then Some(low)
      else if Decimal(s[..|s| - 1]).None? then None
      else Some(10 * Decimal(s[..|s| - 1]).value + low)
  }

  function OrZero(n: Option<nat>): int { if n.None? then 0 else n.value }

  /** strconv.Atoi, 0 where it fails. */
  function Atoi(s: string): int {
    if s != "" && s[0] == '-' then -OrZero(Decimal(s[1..]))
    else if s != "" && s[0] == '+' then OrZero(Decimal(s[1..]))
    else OrZero(Decimal(s))
  }

  /** n in decimal. */
  function Show(n: nat): (s: string)
    ensures s != "" && forall i :: 0 <= i < |s| ==> Digit(s[i])
  {
    var last := [('0' as int + n % 10) as char];
    if n < 10 then last else Show(n / 10) + last
  }

  lemma {:induction false} ShowThenRead(n: nat)
    ensures Decimal(Show(n)) == Some(n)
  {
    if n >= 10 {
      ShowThenRead(n / 10);
      var s := Show(n);
      assert s[..|s| - 1] == Show(n / 10);
    }
  }

  lemma {:induction false} CommaEnds(s: string, rest: string)
    requires ',' !in s
    ensures BeforeComma(s + "," + rest) == s && BeforeComma(s) == s
  {
    if s != "" {
      CommaEnds(s[1..], rest);
      assert (s + "," + rest)[1..] == s[1..] + "," + rest;
      assert [s[0]] + s[1..] == s;
    }
  }

  // ---------- reading a diff ----------

  /** An added line: the file and its number in the file's new version. */
  type Entry = (string, int)

  /** file is empty until a surviving file's header is read; next is the number of the next added
      line. */
  datatype Scan = Scan(entries: seq<Entry>, file: string, next: int)

  predicate Pluses(line: string) { |line| >= 3 && line[0] == '+' && line[1] == '+' && line[2] == '+' }

  predicate FileHeader(line: string) { Pluses(line) && |line| >= 4 && line[3] == ' ' }

  predicate HunkHeader(line: string) { |line| >= 3 && line[0] == '@' && line[1] == '@' && line[2] == ' ' }

  predicate AddedLine(line: string) { line != "" && line[0] == '+' && !Pluses(line) }

  /** What the three kinds of lines look like. */
  lemma LinesAre(line: string)
    ensures FileHeader(line) <==> |line| >= 4 && line[..4] == "+++ "
    ensures HunkHeader(line) <==> |line| >= 3 && line[..3] == "@@ "
    ensures AddedLine(line) <==> |line| >= 1 && line[..1] == "+" && !(|line| >= 3 && line[..3] == "+++")
  {
    if |line| >= 3 {
      assert line[..3] == [line[0], line[1], line[2]];
    }
    if |line| >= 4 {
      assert line[..4] == [line[0], line[1], line[2], line[3]];
    }
  }

  /** A name without the prefix b/ is taken as it is. */
  lemma NamesAre(name: string)
    ensures FileOf("/dev/null") == "" && FileOf("b/" + name) == name
    ensures name != "/dev/null" && !(|name| >= 2 && name[..2] == "b/") ==> FileOf(name) == name
  {
    assert "/dev/null"[0] == '/' && ("b/" + name)[0] == 'b' && ("b/" + name)[2..] == name;
    assert |name| >= 2 ==> name[..2] == [name[0], name[1]];
  }

  /** A number is read with or without a sign. */
  lemma AtoiReads(n: nat)
    ensures Atoi(Show(n)) == Atoi("+" + Show(n)) == n && Atoi("-" + Show(n)) + n == 0
  {
    ShowThenRead(n);
    assert Digit(Show(n)[0]);
    assert ("+" + Show(n))[1..] == Show(n) && ("-" + Show(n))[1..] == Show(n);
  }

  function FileOf(name: string): string {
    if name == "/dev/null" then ""
    else if |name| >= 2 && name[0] == 'b' && name[1] == '/' then name[2..]
    else name
  }

  function StartOf(header: string, was: int): int {
    var plus := Fields(header);
    if |plus| < 3 then was
    else Atoi(BeforeComma(if plus[2] != "" && plus[2][0] == '+' then plus[2][1..] else plus[2]))
  }

  function Read(st: Scan, line: string): Scan {
    if FileHeader(line) then st.(file := FileOf(line[4..]))
    else if HunkHeader(line) then st.(next := StartOf(line, st.next))
    else if AddedLine(line) && st.file != "" && st.next > 0
    then Scan(st.entries + [(st.file, st.next)], st.file, st.next + 1)
    else st
  }

  function ReadAll(st: Scan, lines: seq<string>): Scan
    decreases |lines|
  {
    if lines == [] then st else ReadAll(Read(st, lines[0]), lines[1..])
  }

  lemma {:induction false} ReadJoined(st: Scan, a: seq<string>, b: seq<string>)
    ensures ReadAll(st, a + b) == ReadAll(ReadAll(st, a), b)
    decreases |a|
  {
    if a == [] {
      assert a + b == b;
    } else {
      assert (a + b)[1..] == a[1..] + b;
      ReadJoined(Read(st, a[0]), a[1..], b);
    }
  }

  /** Whatever the text: nothing is recorded without a file, or with a number that is no line's. */
  lemma {:induction false} EntriesAreLines(st: Scan, lines: seq<string>)
    requires forall e :: e in st.entries ==> e.0 != "" && e.1 > 0
    ensures forall e :: e in ReadAll(st, lines).entries ==> e.0 != "" && e.1 > 0
    decreases |lines|
  {
    if lines != [] {
      EntriesAreLines(Read(st, lines[0]), lines[1..]);
    }
  }

  /** The numbers recorded for a file, in order. */
  function LinesOf(entries: seq<Entry>, file: string): seq<int> {
    if entries == [] then []
    else LinesOf(entries[..|entries| - 1], file)
         + if entries[|entries| - 1].0 == file then [entries[|entries| - 1].1] else []
  }

  /** The result as a map: a file is in it when it has an entry. */
  ghost predicate Tabulates(table: map<string, seq<int>>, entries: seq<Entry>) {
    forall f :: (f in table <==> LinesOf(entries, f) != []) && (f in table ==> table[f] == LinesOf(entries, f))
  }

  /** What AddedLines reads in a diff. */
  function Added(diff: string): seq<Entry> { ReadAll(Scan([], "", 0), SplitLines(diff)).entries }

  method AddedLines(diff: string) returns (table: map<string, seq<int>>)
    ensures Tabulates(table, Added(diff))
  {
    var lines := SplitLines(diff);
    table := map[];
    var file, next := "", 0;
    ghost var st := Scan([], "", 0);
    for i := 0 to |lines|
      invariant file == st.file && next == st.next && Tabulates(table, st.entries)
      invariant ReadAll(Scan([], "", 0), lines) == ReadAll(st, lines[i..])
    {
      var line := lines[i];
      assert lines[i..][0] == line && lines[i..][1..] == lines[i + 1..];
      ghost var was := st;
      st := Read(st, line);
      if FileHeader(line) {
        var name := line[4..];
        if name == "/dev/null" {
          file := "";
        } else {
          file := FileOf(name);
        }
      } else if HunkHeader(line) {
        var plus := Fields(line);
        if |plus| < 3 {
          continue;
        }
        var start := if plus[2] != "" && plus[2][0] == '+' then plus[2][1..] else plus[2];
        next := Atoi(BeforeComma(start));
      } else if AddedLine(line) {
        if file != "" && next > 0 {
          assert st.entries[..|was.entries|] == was.entries;
          table := table[file := (if file in table then table[file] else []) + [next]];
          next := next + 1;
        }
      }
    }
  }
}
