/** AddedLines on the text git prints for a change: what it recovers, and exactly when
    (internal/coverage/coverage.go:76-111). */
module DiffRoundTrip {
  import opened Common
  import opened DiffLines

  // ---------- a change, and git's zero-context text of it ----------

  /** Some lines kept, then some removed and some added. section is what follows the second @@;
      oldOpen and newOpen say that the old or new file ends here without a newline. */
  datatype Chunk = Chunk(kept: nat, removed: seq<string>, added: seq<string>, section: string, oldOpen: bool, newOpen: bool)

  /** meta holds the lines before the two names; oldName is the old name as git prints it; name is the
      file's new name, byte by byte, None when deleted. */
  datatype FileChange = FileChange(meta: seq<string>, oldName: string, name: Option<string>, chunks: seq<Chunk>)

  /** Per line of the new version, whether the change adds it. */
  function NewVersion(chunks: seq<Chunk>): seq<bool> {
    if chunks == [] then []
    else
      var last := chunks[|chunks| - 1];
      NewVersion(chunks[..|chunks| - 1]) + (seq(last.kept, _ => false) + seq(|last.added|, _ => true))
  }

  function Range(start: nat, count: nat): string {
    if count == 1 then Show(start) else Show(start) + "," + Show(count)
  }

  /** Where a hunk starts: its first line, or the line before when it has none. */
  function StartAfter(before: nat, count: nat): nat { if count == 0 then before else before + 1 }

  function Header(c: Chunk, oldBefore: nat, newBefore: nat): string {
    "@@ -" + Range(StartAfter(oldBefore, |c.removed|), |c.removed|)
    + " +" + Range(StartAfter(newBefore, |c.added|), |c.added|) + " @@" + c.section
  }

  function Signed(sign: char, texts: seq<string>): seq<string> {
    seq(|texts|, i requires 0 <= i < |texts| => [sign] + texts[i])
  }

  function EndMark(open: bool): seq<string> { if open then ["\\ No newline at end of file"] else [] }

  function Hunk(c: Chunk, oldBefore: nat, newBefore: nat): seq<string> {
    [Header(c, oldBefore, newBefore)]
    + (Signed('-', c.removed) + EndMark(c.oldOpen)) + Signed('+', c.added) + EndMark(c.newOpen)
  }

  /** How many lines the chunks make of the old version, and of the new. */
  function OldLength(chunks: seq<Chunk>): nat {
    if chunks == [] then 0
    else OldLength(chunks[..|chunks| - 1]) + chunks[|chunks| - 1].kept + |chunks[|chunks| - 1].removed|
  }

  function NewLength(chunks: seq<Chunk>): nat {
    if chunks == [] then 0
    else NewLength(chunks[..|chunks| - 1]) + chunks[|chunks| - 1].kept + |chunks[|chunks| - 1].added|
  }

  function HunkAt(chunks: seq<Chunk>, i: nat): seq<string>
    requires i < |chunks|
  {
    Hunk(chunks[i], OldLength(chunks[..i]) + chunks[i].kept, NewLength(chunks[..i]) + chunks[i].kept)
  }

  function Hunks(chunks: seq<Chunk>): seq<seq<string>> {
    seq(|chunks|, i requires 0 <= i < |chunks| => HunkAt(chunks, i))
  }

  /** The bytes git quotes in a name (core.quotePath unset). */
  predicate Special(c: char) { c < ' ' || c == '"' || c == '\\' || c >= '\U{7F}' }

  function Escape(c: char): string {
    if c == '"' || c == '\\' then ['\\', c]
    else if c == '\U{07}' then "\\a"
    else if c == '\U{08}' then "\\b"
    else if c == '\t' then "\\t"
    else if c == '\n' then "\\n"
    else if c == '\U{0B}' then "\\v"
    else if c == '\U{0C}' then "\\f"
    else if c == '\r' then "\\r"
    else ['\\', Octal(c as int / 64), Octal(c as int / 8), Octal(c as int)]
  }

  function Octal(n: nat): char { ('0' as int + n % 8) as char }

  function Escaped(name: string): string {
    if name == "" then "" else (if Special(name[0]) then Escape(name[0]) else [name[0]]) + Escaped(name[1..])
  }

  predicate Quoted(name: string) { exists i :: 0 <= i < |name| && Special(name[i]) }

  /** How git prints a new name: in quotes where it must, and with a tab after one that has a space. */
  function Printed(name: string): string {
    (if Quoted(name) then "\"b/" + Escaped(name) + "\"" else "b/" + name) + if ' ' in name then "\t" else ""
  }

  function NewName(name: Option<string>): string { if name.Some? then Printed(name.value) else "/dev/null" }

  /** A name that is printed as it is. */
  predicate Ordinary(name: string) { !Quoted(name) && ' ' !in name }

  function Names(f: FileChange): seq<string> { ["--- " + f.oldName, "+++ " + NewName(f.name)] }

  function FileText(f: FileChange): seq<string> {
    if f.chunks == [] then f.meta else f.meta + Names(f) + Flatten(Hunks(f.chunks))
  }

  function DiffLinesOf(files: seq<FileChange>): seq<string> {
    Flatten(seq(|files|, i requires 0 <= i < |files| => FileText(files[i])))
  }

  /** Neither a header nor an added line. */
  predicate Plain(line: string) { NoNewline(line) && !HunkHeader(line) && (line == "" || line[0] != '+') }

  predicate ChunkOk(c: Chunk) {
    && NoNewline(c.section)
    && (forall i :: 0 <= i < |c.removed| ==> NoNewline(c.removed[i]))
    && (forall i :: 0 <= i < |c.added| ==> NoNewline(c.added[i]))
  }

  /** What git's text always satisfies; nothing is added to a deleted file. */
  predicate FileOk(f: FileChange) {
    && (forall i :: 0 <= i < |f.meta| ==> Plain(f.meta[i]))
    && NoNewline(f.oldName)
    && f.name != Some("")
    && (forall i :: 0 <= i < |f.chunks| ==> ChunkOk(f.chunks[i]))
    && (f.name.None? ==> AddsNothing(f))
  }

  predicate AddsNothing(f: FileChange) { forall i :: 0 <= i < |f.chunks| ==> f.chunks[i].added == [] }

  predicate DiffOk(files: seq<FileChange>) { forall i :: 0 <= i < |files| ==> FileOk(files[i]) }

  /** An added line whose own text begins with two pluses. */
  predicate Misread(text: string) { |text| >= 2 && text[0] == '+' && text[1] == '+' }

  predicate ChunkClear(c: Chunk) { forall i :: 0 <= i < |c.added| ==> !Misread(c.added[i]) }

  predicate FileClear(f: FileChange) { forall i :: 0 <= i < |f.chunks| ==> ChunkClear(f.chunks[i]) }

  predicate Clear(files: seq<FileChange>) { forall i :: 0 <= i < |files| ==> FileClear(files[i]) }

  /** A file whose name is printed as it is, or to which nothing is added. */
  predicate NameClear(f: FileChange) { f.name.None? || Ordinary(f.name.value) || AddsNothing(f) }

  predicate NamesClear(files: seq<FileChange>) { forall i :: 0 <= i < |files| ==> NameClear(files[i]) }

  // ---------- what should be read ----------

  /** Lines start, start + 1, ... of a file, n of them. */
  function Count(file: string, start: int, n: nat): (e: seq<Entry>)
    ensures |e| == n
    decreases n
  {
    if n == 0 then [] else Count(file, start, n - 1) + [(file, start + n - 1)]
  }

  function EntriesAt(file: string, chunks: seq<Chunk>, i: nat): seq<Entry>
    requires i < |chunks|
  {
    Count(file, NewLength(chunks[..i]) + chunks[i].kept + 1, |chunks[i].added|)
  }

  lemma {:induction false} CountIs(file: string, start: int, n: nat)
    ensures forall i :: 0 <= i < n ==> Count(file, start, n)[i] == (file, start + i)
  {
    if n > 0 {
      CountIs(file, start, n - 1);
    }
  }

  /** The added lines of a file, chunk by chunk. */
  function ChunkEntries(file: string, chunks: seq<Chunk>): seq<seq<Entry>> {
    seq(|chunks|, i requires 0 <= i < |chunks| => EntriesAt(file, chunks, i))
  }

  function FileEntries(f: FileChange): seq<Entry> {
    if f.name.None? then [] else Flatten(ChunkEntries(f.name.value, f.chunks))
  }

  function Expected(files: seq<FileChange>): seq<Entry> {
    Flatten(seq(|files|, i requires 0 <= i < |files| => FileEntries(files[i])))
  }

  // ---------- the name a file is recorded under ----------

  function Recorded(name: string): string { FileOf(Printed(name)) }

  function Renamed(f: FileChange): FileChange {
    if f.name.None? then f else f.(name := Some(Recorded(f.name.value)))
  }

  function AllRenamed(files: seq<FileChange>): seq<FileChange> {
    seq(|files|, i requires 0 <= i < |files| => Renamed(files[i]))
  }

  lemma {:induction false} EscapedLength(name: string)
    ensures |Escaped(name)| >= |name| && NoNewline(Escaped(name))
  {
    if name != "" {
      EscapedLength(name[1..]);
      assert NoNewline(if Special(name[0]) then Escape(name[0]) else [name[0]]);
    }
  }

  lemma PrintedIs(name: string)
    requires name != ""
    ensures NoNewline(Printed(name)) && Printed(name) != "/dev/null"
    ensures Recorded(name) == if Quoted(name) then Printed(name) else Printed(name)[2..]
  {
    EscapedLength(name);
    assert "/dev/null"[0] == '/';
    if Quoted(name) {
      assert Printed(name)[0] == '"';
    } else {
      assert Printed(name)[0] == 'b' && Printed(name)[1] == '/';
    }
  }

  /** An ordinary name is recorded as it is; any other under a longer one. */
  lemma RecordedLength(name: string)
    requires name != ""
    ensures Ordinary(name) ==> Recorded(name) == name
    ensures !Ordinary(name) ==> |Recorded(name)| > |name|
  {
    PrintedIs(name);
    EscapedLength(name);
    if !Quoted(name) {
      assert Printed(name)[2..] == name + if ' ' in name then "\t" else "";
    }
  }

  // ---------- reading the parts ----------

  lemma {:induction false} PlainReads(st: Scan, lines: seq<string>)
    requires forall i :: 0 <= i < |lines| ==> Plain(lines[i])
    ensures ReadAll(st, lines) == st
    decreases |lines|
  {
    if lines != [] {
      PlainReads(st, lines[1..]);
    }
  }

  lemma {:induction false} AddedReads(st: Scan, texts: seq<string>)
    requires st.file != "" && st.next > 0 && forall i :: 0 <= i < |texts| ==> !Misread(texts[i])
    ensures ReadAll(st, Signed('+', texts))
         == Scan(st.entries + Count(st.file, st.next, |texts|), st.file, st.next + |texts|)
    decreases |texts|
  {
    var lines := Signed('+', texts);
    if texts == [] {
      assert st.entries + Count(st.file, st.next, 0) == st.entries;
    } else {
      assert lines[1..] == Signed('+', texts[1..]);
      var mid := Scan(st.entries + [(st.file, st.next)], st.file, st.next + 1);
      assert Read(st, lines[0]) == mid;
      AddedReads(mid, texts[1..]);
      CountIs(st.file, st.next + 1, |texts| - 1);
      CountIs(st.file, st.next, |texts|);
      assert [(st.file, st.next)] + Count(st.file, st.next + 1, |texts| - 1) == Count(st.file, st.next, |texts|);
      assert mid.entries + Count(st.file, st.next + 1, |texts| - 1)
          == st.entries + ([(st.file, st.next)] + Count(st.file, st.next + 1, |texts| - 1));
    }
  }

  lemma RangeStart(start: nat, count: nat)
    ensures Atoi(BeforeComma(Range(start, count))) == start
    ensures Range(start, count) != "" && Range(start, count)[0] != '+'
    ensures Word(Range(start, count))
  {
    ShowThenRead(start);
    CommaEnds(Show(start), Show(count));
  }

  lemma Regroup(a: string, b: string, section: string)
    ensures "@@ -" + a + " +" + b + " @@" + section
         == "@@" + " " + ("-" + a + " " + ("+" + b + " " + ("@@" + section)))
  {
    calc {
      "@@ -" + a + " +" + b + " @@" + section;
      { assert " +" == " " + "+" && " @@" == " " + "@@" && "@@ -" == "@@" + " " + "-"; }
      "@@" + " " + "-" + a + (" " + "+") + b + (" " + "@@") + section;
      "@@" + " " + ("-" + a + " " + ("+" + b + " " + ("@@" + section)));
    }
  }

  /** The third field of a hunk header. */
  lemma ThirdField(a: string, b: string, section: string)
    requires Word(a) && Word(b)
    ensures
      var fields := Fields("@@ -" + a + " +" + b + " @@" + section);
      |fields| >= 3 && fields[2] == "+" + b
  {
    Regroup(a, b, section);
    var tail := "@@" + section;
    FirstField("@@", "-" + a + " " + ("+" + b + " " + tail));
    FirstField("-" + a, "+" + b + " " + tail);
    FirstField("+" + b, tail);
  }

  /** A hunk header says where the new lines start. */
  lemma HeaderReads(st: Scan, c: Chunk, oldBefore: nat, newBefore: nat)
    ensures Read(st, Header(c, oldBefore, newBefore)) == st.(next := StartAfter(newBefore, |c.added|))
  {
    var a, b := Range(StartAfter(oldBefore, |c.removed|), |c.removed|), Range(StartAfter(newBefore, |c.added|), |c.added|);
    RangeStart(StartAfter(oldBefore, |c.removed|), |c.removed|);
    RangeStart(StartAfter(newBefore, |c.added|), |c.added|);
    ThirdField(a, b, c.section);
    HeaderIsOne(a, b, c.section);
    assert ("+" + b)[1..] == b;
  }

  lemma HeaderIsOne(a: string, b: string, section: string)
    ensures
      var line := "@@ -" + a + " +" + b + " @@" + section;
      HunkHeader(line) && !FileHeader(line)
  {
  }

  lemma MinusIsPlain(removed: seq<string>, open: bool)
    requires forall i :: 0 <= i < |removed| ==> NoNewline(removed[i])
    ensures forall i :: 0 <= i < |Signed('-', removed) + EndMark(open)| ==> Plain((Signed('-', removed) + EndMark(open))[i])
  {
  }

  lemma HunkReads(st: Scan, c: Chunk, oldBefore: nat, newBefore: nat)
    requires ChunkOk(c) && ChunkClear(c) && (st.file != "" || c.added == [])
    ensures
      var after := ReadAll(st, Hunk(c, oldBefore, newBefore));
      && after.file == st.file
      && after.entries == st.entries + Count(st.file, newBefore + 1, |c.added|)
  {
    var header, minus, plus, mark :=
      [Header(c, oldBefore, newBefore)], Signed('-', c.removed) + EndMark(c.oldOpen), Signed('+', c.added), EndMark(c.newOpen);
    HeaderReads(st, c, oldBefore, newBefore);
    var at := st.(next := StartAfter(newBefore, |c.added|));
    assert ReadAll(st, header) == at;
    MinusIsPlain(c.removed, c.oldOpen);
    PlainReads(at, minus);
    ReadJoined(st, header, minus);
    ReadJoined(st, header + minus, plus);
    ReadJoined(st, header + minus + plus, mark);
    MinusIsPlain([], c.newOpen);
    assert Signed('-', []) + mark == mark;
    if c.added != [] {
      AddedReads(at, c.added);
    } else {
      assert plus == [];
      assert st.entries + Count(st.file, newBefore + 1, 0) == st.entries;
    }
    PlainReads(ReadAll(at, plus), mark);
  }

  /** Reading lines while file is current adds x and leaves it current. */
  ghost predicate Contributes(file: string, lines: seq<string>, x: seq<Entry>) {
    forall st: Scan {:trigger ReadAll(st, lines)} :: st.file == file ==> Adds(st, ReadAll(st, lines), x)
  }

  predicate Adds(st: Scan, after: Scan, x: seq<Entry>) {
    after.file == st.file && after.entries == st.entries + x
  }

  lemma ContributeBoth(file: string, a: seq<string>, b: seq<string>, x: seq<Entry>, y: seq<Entry>)
    requires Contributes(file, a, x) && Contributes(file, b, y)
    ensures Contributes(file, a + b, x + y)
  {
    forall st: Scan | st.file == file ensures Adds(st, ReadAll(st, a + b), x + y) {
      ReadJoined(st, a, b);
      assert Adds(st, ReadAll(st, a), x);
      assert Adds(ReadAll(st, a), ReadAll(ReadAll(st, a), b), y);
      assert st.entries + x + y == st.entries + (x + y);
    }
  }

  lemma HunkContributes(file: string, c: Chunk, oldBefore: nat, newBefore: nat)
    requires ChunkOk(c) && ChunkClear(c) && (file != "" || c.added == [])
    ensures Contributes(file, Hunk(c, oldBefore, newBefore), Count(file, newBefore + 1, |c.added|))
  {
    forall st: Scan | st.file == file
      ensures Adds(st, ReadAll(st, Hunk(c, oldBefore, newBefore)), Count(file, newBefore + 1, |c.added|))
    {
      HunkReads(st, c, oldBefore, newBefore);
    }
  }

  /** Lines in pieces, each of which contributes its own. */
  lemma {:induction false} PiecesContribute(file: string, pieces: seq<seq<string>>, xs: seq<seq<Entry>>)
    requires |pieces| == |xs| && forall i :: 0 <= i < |pieces| ==> Contributes(file, pieces[i], xs[i])
    ensures Contributes(file, Flatten(pieces), Flatten(xs))
  {
    if pieces != [] {
      PiecesContribute(file, pieces[1..], xs[1..]);
      assert Contributes(file, pieces[0], xs[0]);
      ContributeBoth(file, pieces[0], Flatten(pieces[1..]), xs[0], Flatten(xs[1..]));
    }
  }

  lemma HunksContribute(file: string, chunks: seq<Chunk>)
    requires forall i :: 0 <= i < |chunks| ==> ChunkOk(chunks[i]) && ChunkClear(chunks[i])
    requires file != "" || forall i :: 0 <= i < |chunks| ==> chunks[i].added == []
    ensures Contributes(file, Flatten(Hunks(chunks)), Flatten(ChunkEntries(file, chunks)))
  {
    var pieces, xs := Hunks(chunks), ChunkEntries(file, chunks);
    forall i | 0 <= i < |pieces| ensures Contributes(file, pieces[i], xs[i]) {
      HunkContributes(file, chunks[i], OldLength(chunks[..i]) + chunks[i].kept, NewLength(chunks[..i]) + chunks[i].kept);
    }
    PiecesContribute(file, pieces, xs);
  }

  /** Reading lines adds x, whatever file is current. */
  ghost predicate AddsEntries(lines: seq<string>, x: seq<Entry>) {
    forall st: Scan {:trigger ReadAll(st, lines)} :: ReadAll(st, lines).entries == st.entries + x
  }

  /** Lines in pieces, each of which adds its own. */
  lemma {:induction false} PiecesAdd(pieces: seq<seq<string>>, xs: seq<seq<Entry>>)
    requires |pieces| == |xs| && forall i :: 0 <= i < |pieces| ==> AddsEntries(pieces[i], xs[i])
    ensures AddsEntries(Flatten(pieces), Flatten(xs))
  {
    if pieces != [] {
      PiecesAdd(pieces[1..], xs[1..]);
      assert AddsEntries(pieces[0], xs[0]);
      forall st: Scan ensures ReadAll(st, Flatten(pieces)).entries == st.entries + Flatten(xs) {
        ReadJoined(st, pieces[0], Flatten(pieces[1..]));
        assert st.entries + xs[0] + Flatten(xs[1..]) == st.entries + (xs[0] + Flatten(xs[1..]));
      }
    }
  }

  /** What the file variable is after a file's names. */
  function Current(f: FileChange): string { if f.name.Some? then Recorded(f.name.value) else "" }

  /** One file's text adds its entries, under the name recorded. */
  lemma FileAdds(f: FileChange)
    requires FileOk(f) && FileClear(f)
    ensures AddsEntries(FileText(f), FileEntries(Renamed(f)))
  {
    var file, x := Current(f), FileEntries(Renamed(f));
    if f.name.Some? {
      RecordedLength(f.name.value);
    }
    HunksContribute(file, f.chunks);
    if f.name.None? || f.chunks == [] {
      NothingAdded(ChunkEntries(file, f.chunks));
    }
    forall st: Scan ensures ReadAll(st, FileText(f)).entries == st.entries + x {
      FileReads(st, f, x);
    }
  }

  lemma FileReads(st: Scan, f: FileChange, x: seq<Entry>)
    requires FileOk(f) && (f.chunks == [] ==> x == [])
    requires Contributes(Current(f), Flatten(Hunks(f.chunks)), x)
    ensures ReadAll(st, FileText(f)).entries == st.entries + x
  {
    PlainReads(st, f.meta);
    if f.chunks != [] {
      NamesRead(st, f);
      ReadAfter(st, f.meta, Names(f), Flatten(Hunks(f.chunks)), x, Current(f));
    }
  }

  lemma ReadAfter(st: Scan, meta: seq<string>, names: seq<string>, hunks: seq<string>, x: seq<Entry>, file: string)
    requires ReadAll(st, meta) == st && ReadAll(st, names) == st.(file := file) && Contributes(file, hunks, x)
    ensures ReadAll(st, meta + names + hunks).entries == st.entries + x
  {
    ReadJoined(st, meta, names);
    ReadJoined(st, meta + names, hunks);
    assert Adds(st.(file := file), ReadAll(st.(file := file), hunks), x);
  }

  lemma {:induction false} NothingAdded(xs: seq<seq<Entry>>)
    requires forall i :: 0 <= i < |xs| ==> xs[i] == []
    ensures Flatten(xs) == []
  {
    if xs != [] {
      NothingAdded(xs[1..]);
    }
  }

  lemma NamesRead(st: Scan, f: FileChange)
    requires f.name != Some("")
    ensures ReadAll(st, Names(f)) == st.(file := Current(f))
  {
    var old', new' := "--- " + f.oldName, "+++ " + NewName(f.name);
    NameRead(st, f);
    assert Read(st, old') == st;
    ReadTwo(st, old', new');
  }

  lemma ReadTwo(st: Scan, a: string, b: string)
    ensures ReadAll(st, [a, b]) == Read(Read(st, a), b)
  {
    assert [a, b][1..] == [b] && [b][1..] == [];
    assert ReadAll(Read(st, a), [b]) == Read(Read(st, a), b);
  }

  lemma NameRead(st: Scan, f: FileChange)
    ensures Read(st, "+++ " + NewName(f.name)) == st.(file := Current(f))
  {
    var shown := NewName(f.name);
    assert ("+++ " + shown)[4..] == shown;
  }

  /** On the text of any change without a misread line, AddedLines records exactly the added lines,
      file by file in order, each under the name its file is recorded as. */
  lemma DiffReads(files: seq<FileChange>)
    requires DiffOk(files) && Clear(files)
    ensures AddsEntries(DiffLinesOf(files), Expected(AllRenamed(files)))
  {
    var renamed := AllRenamed(files);
    var pieces := seq(|files|, i requires 0 <= i < |files| => FileText(files[i]));
    var xs := seq(|renamed|, i requires 0 <= i < |renamed| => FileEntries(renamed[i]));
    forall i | 0 <= i < |files| ensures AddsEntries(pieces[i], xs[i]) {
      FileAdds(files[i]);
    }
    PiecesAdd(pieces, xs);
  }

  // ---------- the text as a whole ----------

  predicate LinesOk(lines: seq<string>) { forall i :: 0 <= i < |lines| ==> NoNewline(lines[i]) }

  lemma RangeHasNoNewline(start: nat, count: nat)
    ensures NoNewline(Range(start, count))
  {
    assert forall i :: 0 <= i < |Show(start)| ==> Digit(Show(start)[i]);
    assert forall i :: 0 <= i < |Show(count)| ==> Digit(Show(count)[i]);
  }

  lemma HunkLinesOk(c: Chunk, oldBefore: nat, newBefore: nat)
    requires ChunkOk(c)
    ensures LinesOk(Hunk(c, oldBefore, newBefore))
  {
    RangeHasNoNewline(StartAfter(oldBefore, |c.removed|), |c.removed|);
    RangeHasNoNewline(StartAfter(newBefore, |c.added|), |c.added|);
  }

  lemma {:induction false} PiecesOk(pieces: seq<seq<string>>)
    requires forall i :: 0 <= i < |pieces| ==> LinesOk(pieces[i])
    ensures LinesOk(Flatten(pieces))
  {
    if pieces != [] {
      PiecesOk(pieces[1..]);
      assert LinesOk(pieces[0]);
    }
  }

  lemma HunksLinesOk(chunks: seq<Chunk>)
    requires forall i :: 0 <= i < |chunks| ==> ChunkOk(chunks[i])
    ensures LinesOk(Flatten(Hunks(chunks)))
  {
    var pieces := Hunks(chunks);
    forall i | 0 <= i < |pieces| ensures LinesOk(pieces[i]) {
      HunkAtOk(chunks, i);
    }
    PiecesOk(pieces);
  }

  lemma HunkAtOk(chunks: seq<Chunk>, i: nat)
    requires i < |chunks| && ChunkOk(chunks[i])
    ensures LinesOk(HunkAt(chunks, i))
  {
    HunkLinesOk(chunks[i], OldLength(chunks[..i]) + chunks[i].kept, NewLength(chunks[..i]) + chunks[i].kept);
  }

  lemma NamesOk(f: FileChange)
    requires NoNewline(f.oldName) && f.name != Some("")
    ensures LinesOk(Names(f))
    ensures Addable(Names(f)) == 0
  {
    PlainAddsNothing(Names(f));
    if f.name.Some? {
      PrintedIs(f.name.value);
    }
  }

  lemma FileLinesOk(f: FileChange)
    requires FileOk(f)
    ensures LinesOk(FileText(f))
  {
    assert LinesOk(f.meta) by {
      assert forall i :: 0 <= i < |f.meta| ==> Plain(f.meta[i]);
    }
    NamesOk(f);
    HunksLinesOk(f.chunks);
    OkAfter(f.meta, Names(f), Flatten(Hunks(f.chunks)));
  }

  lemma OkAfter(meta: seq<string>, names: seq<string>, hunks: seq<string>)
    requires LinesOk(meta) && LinesOk(names) && LinesOk(hunks)
    ensures LinesOk(meta + names + hunks)
  {
  }

  lemma DiffLinesOk(files: seq<FileChange>)
    requires DiffOk(files)
    ensures LinesOk(DiffLinesOf(files))
  {
    var pieces := seq(|files|, i requires 0 <= i < |files| => FileText(files[i]));
    forall i | 0 <= i < |files| ensures LinesOk(pieces[i]) {
      FileLinesOk(files[i]);
    }
    PiecesOk(pieces);
  }

  /** git's output for a change. */
  function Diff(files: seq<FileChange>): string { Text(DiffLinesOf(files)) }

  /** Reading the text is reading its lines. */
  lemma AddedReadsLines(files: seq<FileChange>)
    requires DiffOk(files)
    ensures Added(Diff(files)) == ReadAll(Scan([], "", 0), DiffLinesOf(files)).entries
  {
    var lines := DiffLinesOf(files);
    DiffLinesOk(files);
    SplitText(lines);
    ReadJoined(Scan([], "", 0), lines, [""]);
    var st := ReadAll(Scan([], "", 0), lines);
    assert Read(st, "") == st;
    assert ReadAll(st, [""]) == st;
  }

  lemma AddedIsExpected(files: seq<FileChange>)
    requires DiffOk(files) && Clear(files)
    ensures Added(Diff(files)) == Expected(AllRenamed(files))
    ensures NamesClear(files) ==> Added(Diff(files)) == Expected(files)
  {
    AddedReadsLines(files);
    DiffReads(files);
    assert ReadAll(Scan([], "", 0), DiffLinesOf(files)).entries == [] + Expected(AllRenamed(files));
    if NamesClear(files) {
      SameUnderOwnNames(files);
    }
  }

  lemma SameUnderOwnNames(files: seq<FileChange>)
    requires DiffOk(files) && NamesClear(files)
    ensures Expected(AllRenamed(files)) == Expected(files)
  {
    var renamed := AllRenamed(files);
    var was := seq(|files|, i requires 0 <= i < |files| => FileEntries(files[i]));
    var now := seq(|renamed|, i requires 0 <= i < |renamed| => FileEntries(renamed[i]));
    forall i | 0 <= i < |files| ensures now[i] == was[i] {
      SameUnderOwnName(files[i]);
    }
    assert now == was;
  }

  lemma SameUnderOwnName(f: FileChange)
    requires f.name != Some("") && NameClear(f)
    ensures FileEntries(Renamed(f)) == FileEntries(f)
  {
    if f.name.Some? {
      RecordedLength(f.name.value);
      if !Ordinary(f.name.value) {
        NothingAdded(ChunkEntries(f.name.value, f.chunks));
        NothingAdded(ChunkEntries(Recorded(f.name.value), f.chunks));
      }
    }
  }

  // ---------- what is expected ----------

  /** The numbers, in increasing order, of exactly the marked lines. */
  predicate Marks(lines: seq<int>, marked: seq<bool>) {
    && (forall i, j :: 0 <= i < j < |lines| ==> lines[i] < lines[j])
    && (forall i :: 0 <= i < |lines| ==> 1 <= lines[i] <= |marked| && marked[lines[i] - 1])
    && (forall k :: 0 <= k < |marked| && marked[k] ==> k + 1 in lines)
  }

  function Numbers(entries: seq<Entry>): (n: seq<int>)
    ensures |n| == |entries|
  {
    seq(|entries|, i requires 0 <= i < |entries| => entries[i].1)
  }

  lemma MarksGrow(lines: seq<int>, marked: seq<bool>, kept: nat, added: nat)
    requires Marks(lines, marked)
    ensures Marks(lines + seq(added, i requires 0 <= i < added => |marked| + kept + 1 + i),
                  marked + (seq(kept, _ => false) + seq(added, _ => true)))
  {
    var more := seq(added, i requires 0 <= i < added => |marked| + kept + 1 + i);
    var longer := marked + (seq(kept, _ => false) + seq(added, _ => true));
    forall k | 0 <= k < |longer| && longer[k] ensures k + 1 in lines + more {
      if k >= |marked| {
        assert more[k - |marked| - kept] == k + 1;
      }
    }
  }

  lemma {:induction false} VersionLength(chunks: seq<Chunk>)
    ensures |NewVersion(chunks)| == NewLength(chunks)
  {
    if chunks != [] {
      VersionLength(chunks[..|chunks| - 1]);
    }
  }

  /** The entries of the last chunk, in terms of the lines before it. */
  lemma LastChunk(file: string, chunks: seq<Chunk>)
    requires chunks != []
    ensures
      var front, last := chunks[..|chunks| - 1], chunks[|chunks| - 1];
      ChunkEntries(file, chunks)
      == ChunkEntries(file, front) + [Count(file, |NewVersion(front)| + last.kept + 1, |last.added|)]
  {
    var n := |chunks| - 1;
    var front := chunks[..n];
    VersionLength(front);
    forall i | 0 <= i < n ensures ChunkEntries(file, chunks)[i] == ChunkEntries(file, front)[i] {
      assert chunks[..i] == front[..i];
    }
    AllButLast(ChunkEntries(file, chunks), ChunkEntries(file, front), EntriesAt(file, chunks, n));
  }

  lemma AllButLast<T>(whole: seq<T>, parts: seq<T>, last: T)
    requires |whole| == |parts| + 1 && whole[|parts|] == last
    requires forall i :: 0 <= i < |parts| ==> whole[i] == parts[i]
    ensures whole == parts + [last]
  {
  }

  /** Entries of one file, and the marks of its lines so far. */
  predicate MarkedBy(entries: seq<Entry>, file: string, marked: seq<bool>) {
    Marks(Numbers(entries), marked) && forall e :: e in entries ==> e.0 == file
  }

  lemma MarkedGrows(entries: seq<Entry>, file: string, marked: seq<bool>, kept: nat, added: nat)
    requires MarkedBy(entries, file, marked)
    ensures MarkedBy(entries + Count(file, |marked| + kept + 1, added), file,
                     marked + (seq(kept, _ => false) + seq(added, _ => true)))
  {
    MarksGrow(Numbers(entries), marked, kept, added);
    CountIs(file, |marked| + kept + 1, added);
    assert Numbers(entries + Count(file, |marked| + kept + 1, added))
        == Numbers(entries) + seq(added, i requires 0 <= i < added => |marked| + kept + 1 + i);
  }

  lemma {:induction false} ChunksMark(file: string, chunks: seq<Chunk>)
    ensures MarkedBy(Flatten(ChunkEntries(file, chunks)), file, NewVersion(chunks))
    decreases |chunks|
  {
    if chunks != [] {
      var front, last := chunks[..|chunks| - 1], chunks[|chunks| - 1];
      ChunksMark(file, front);
      LastChunk(file, chunks);
      var parts, count := ChunkEntries(file, front), Count(file, |NewVersion(front)| + last.kept + 1, |last.added|);
      FlattenAppend(parts, count);
      MarkedGrows(Flatten(parts), file, NewVersion(front), last.kept, |last.added|);
      assert Flatten(ChunkEntries(file, chunks)) == Flatten(parts) + count;
    }
  }

  lemma {:induction false} LinesJoined(a: seq<Entry>, b: seq<Entry>, file: string)
    ensures LinesOf(a + b, file) == LinesOf(a, file) + LinesOf(b, file)
  {
    if b == [] {
      assert a + b == a;
    } else {
      var n := |b| - 1;
      assert (a + b)[..|a| + n] == a + b[..n];
      LinesJoined(a, b[..n], file);
    }
  }

  lemma {:induction false} LinesOfOne(entries: seq<Entry>, file: string)
    requires forall e :: e in entries ==> e.0 == file
    ensures LinesOf(entries, file) == Numbers(entries)
  {
    if entries != [] {
      LinesOfOne(entries[..|entries| - 1], file);
    }
  }

  lemma {:induction false} LinesOfOther(entries: seq<Entry>, file: string)
    requires forall e :: e in entries ==> e.0 != file
    ensures LinesOf(entries, file) == []
  {
    if entries != [] {
      LinesOfOther(entries[..|entries| - 1], file);
    }
  }

  lemma FileLines(f: FileChange, file: string)
    ensures LinesOf(FileEntries(f), file) == if f.name == Some(file) then Numbers(FileEntries(f)) else []
  {
    if f.name.Some? {
      ChunksMark(f.name.value, f.chunks);
      if f.name.value == file {
        LinesOfOne(FileEntries(f), file);
      } else {
        LinesOfOther(FileEntries(f), file);
      }
    }
  }

  predicate DistinctNames(files: seq<FileChange>) {
    forall i, j :: 0 <= i < j < |files| && files[i].name.Some? ==> files[i].name != files[j].name
  }

  lemma ExpectedFirst(files: seq<FileChange>, file: string)
    requires files != []
    ensures LinesOf(Expected(files), file) == LinesOf(FileEntries(files[0]), file) + LinesOf(Expected(files[1..]), file)
  {
    var rest := files[1..];
    var xs := seq(|files|, i requires 0 <= i < |files| => FileEntries(files[i]));
    assert xs[1..] == seq(|rest|, i requires 0 <= i < |rest| => FileEntries(rest[i]));
    LinesJoined(xs[0], Flatten(xs[1..]), file);
  }

  /** A name no file has gets no lines. */
  lemma {:induction false} NotExpected(files: seq<FileChange>, file: string)
    requires forall i :: 0 <= i < |files| ==> files[i].name != Some(file)
    ensures LinesOf(Expected(files), file) == []
    decreases |files|
  {
    if files != [] {
      ExpectedFirst(files, file);
      FileLines(files[0], file);
      NotExpected(files[1..], file);
    }
  }

  lemma {:induction false} ExpectedLines(files: seq<FileChange>, file: string, i: nat)
    requires DistinctNames(files) && i < |files| && files[i].name == Some(file)
    ensures LinesOf(Expected(files), file) == Numbers(FileEntries(files[i]))
    decreases |files|
  {
    ExpectedFirst(files, file);
    FileLines(files[0], file);
    if i == 0 {
      NotExpected(files[1..], file);
      assert Numbers(FileEntries(files[0])) + [] == Numbers(FileEntries(files[0]));
    } else {
      assert files[0].name != files[i].name;
      ExpectedLines(files[1..], file, i - 1);
      assert [] + Numbers(FileEntries(files[i])) == Numbers(FileEntries(files[i]));
    }
  }

  /** For every change no added line of which begins with two pluses, and which adds lines only to files
      of ordinary names: the table has, for each surviving file, exactly the numbers of the lines the
      change adds to it, in increasing order, and nothing for any other name. */
  lemma AddedLinesAreThoseAdded(files: seq<FileChange>, table: map<string, seq<int>>, file: string)
    requires DiffOk(files) && DistinctNames(files) && Clear(files) && NamesClear(files)
    requires Tabulates(table, Added(Diff(files)))
    ensures file in table ==> exists i :: 0 <= i < |files| && files[i].name == Some(file)
    ensures forall i :: 0 <= i < |files| && files[i].name == Some(file) ==>
      Marks(if file in table then table[file] else [], NewVersion(files[i].chunks))
  {
    AddedIsExpected(files);
    if forall i :: 0 <= i < |files| ==> files[i].name != Some(file) {
      NotExpected(files, file);
    }
    forall i | 0 <= i < |files| && files[i].name == Some(file)
      ensures Marks(if file in table then table[file] else [], NewVersion(files[i].chunks))
    {
      ExpectedLines(files, file, i);
      ChunksMark(file, files[i].chunks);
    }
  }

  // ---------- exactly when ----------

  /** How many lines could be recorded. */
  function Addable(lines: seq<string>): nat {
    if lines == [] then 0 else (if AddedLine(lines[0]) then 1 else 0) + Addable(lines[1..])
  }

  lemma {:induction false} AddableJoined(a: seq<string>, b: seq<string>)
    ensures Addable(a + b) == Addable(a) + Addable(b)
  {
    if a == [] {
      assert a + b == b;
    } else {
      assert (a + b)[1..] == a[1..] + b;
      AddableJoined(a[1..], b);
    }
  }

  lemma {:induction false} RecordsAtMostAddable(st: Scan, lines: seq<string>)
    ensures |ReadAll(st, lines).entries| <= |st.entries| + Addable(lines)
    decreases |lines|
  {
    if lines != [] {
      RecordsAtMostAddable(Read(st, lines[0]), lines[1..]);
    }
  }

  lemma {:induction false} PlainAddsNothing(lines: seq<string>)
    requires forall i :: 0 <= i < |lines| ==> lines[i] == "" || lines[i][0] != '+' || Pluses(lines[i])
    ensures Addable(lines) == 0
  {
    if lines != [] {
      PlainAddsNothing(lines[1..]);
    }
  }

  lemma {:induction false} MisreadIsNotAddable(texts: seq<string>)
    ensures Addable(Signed('+', texts)) <= |texts|
    ensures (exists i :: 0 <= i < |texts| && Misread(texts[i])) ==> Addable(Signed('+', texts)) < |texts|
  {
    if texts != [] {
      assert Signed('+', texts)[1..] == Signed('+', texts[1..]);
      MisreadIsNotAddable(texts[1..]);
      if i :| 0 <= i < |texts| && Misread(texts[i]) && i > 0 {
        assert Misread(texts[1..][i - 1]);
      }
    }
  }

  lemma HunkAddable(c: Chunk, oldBefore: nat, newBefore: nat)
    ensures Addable(Hunk(c, oldBefore, newBefore)) <= |c.added|
    ensures !ChunkClear(c) ==> Addable(Hunk(c, oldBefore, newBefore)) < |c.added|
  {
    var header, minus, plus, mark :=
      [Header(c, oldBefore, newBefore)], Signed('-', c.removed) + EndMark(c.oldOpen), Signed('+', c.added), EndMark(c.newOpen);
    AddableJoined(header, minus);
    AddableJoined(header + minus, plus);
    AddableJoined(header + minus + plus, mark);
    PlainAddsNothing(header);
    PlainAddsNothing(minus);
    PlainAddsNothing(mark);
    MisreadIsNotAddable(c.added);
  }

  /** Pieces that can record at most as much as is expected of them, one of them less. */
  lemma {:induction false} PiecesAddable(pieces: seq<seq<string>>, xs: seq<seq<Entry>>)
    requires |pieces| == |xs| && forall i :: 0 <= i < |pieces| ==> Addable(pieces[i]) <= |xs[i]|
    ensures Addable(Flatten(pieces)) <= |Flatten(xs)|
    ensures (exists i :: 0 <= i < |pieces| && Addable(pieces[i]) < |xs[i]|) ==> Addable(Flatten(pieces)) < |Flatten(xs)|
  {
    if pieces != [] {
      PiecesAddable(pieces[1..], xs[1..]);
      AddableJoined(pieces[0], Flatten(pieces[1..]));
      if i :| 0 <= i < |pieces| && Addable(pieces[i]) < |xs[i]| && i > 0 {
        assert pieces[1..][i - 1] == pieces[i] && xs[1..][i - 1] == xs[i];
      }
    }
  }

  lemma HunksAddable(file: string, chunks: seq<Chunk>)
    ensures Addable(Flatten(Hunks(chunks))) <= |Flatten(ChunkEntries(file, chunks))|
    ensures (exists i :: 0 <= i < |chunks| && !ChunkClear(chunks[i])) ==>
      Addable(Flatten(Hunks(chunks))) < |Flatten(ChunkEntries(file, chunks))|
  {
    var pieces, xs := Hunks(chunks), ChunkEntries(file, chunks);
    forall i | 0 <= i < |pieces|
      ensures Addable(pieces[i]) <= |xs[i]|
      ensures !ChunkClear(chunks[i]) ==> Addable(pieces[i]) < |xs[i]|
    {
      HunkAddable(chunks[i], OldLength(chunks[..i]) + chunks[i].kept, NewLength(chunks[..i]) + chunks[i].kept);
    }
    PiecesAddable(pieces, xs);
  }

  lemma FileAddable(f: FileChange)
    requires FileOk(f)
    ensures Addable(FileText(f)) <= |FileEntries(f)|
    ensures !FileClear(f) ==> Addable(FileText(f)) < |FileEntries(f)|
  {
    var file := if f.name.Some? then f.name.value else "";
    HunksAddable(file, f.chunks);
    PlainAddsNothing(f.meta);
    NamesOk(f);
    AddableAfter(f.meta, Names(f), Flatten(Hunks(f.chunks)));
    if f.name.None? {
      NothingAdded(ChunkEntries(file, f.chunks));
    }
  }

  lemma AddableAfter(meta: seq<string>, names: seq<string>, hunks: seq<string>)
    requires Addable(meta) == 0 && Addable(names) == 0
    ensures Addable(meta + names + hunks) == Addable(hunks)
  {
    AddableJoined(meta, names);
    AddableJoined(meta + names, hunks);
  }

  lemma DiffAddable(files: seq<FileChange>)
    requires DiffOk(files) && !Clear(files)
    ensures |Added(Diff(files))| < |Expected(files)|
  {
    AddedReadsLines(files);
    RecordsAtMostAddable(Scan([], "", 0), DiffLinesOf(files));
    var pieces := seq(|files|, i requires 0 <= i < |files| => FileText(files[i]));
    var xs := seq(|files|, i requires 0 <= i < |files| => FileEntries(files[i]));
    forall i | 0 <= i < |files|
      ensures Addable(pieces[i]) <= |xs[i]| && (!FileClear(files[i]) ==> Addable(pieces[i]) < |xs[i]|)
    {
      FileAddable(files[i]);
    }
    PiecesAddable(pieces, xs);
  }

  /** Two lists that agree on every file hold the same entries. */
  lemma {:induction false} CountOfEntry(entries: seq<Entry>, file: string, k: int)
    ensures multiset(entries)[(file, k)] == multiset(LinesOf(entries, file))[k]
  {
    if entries != [] {
      var n := |entries| - 1;
      assert entries == entries[..n] + [entries[n]];
      CountOfEntry(entries[..n], file, k);
    }
  }

  ghost predicate SameLines(a: seq<Entry>, b: seq<Entry>) { forall f :: LinesOf(a, f) == LinesOf(b, f) }

  lemma SameLinesSameSize(a: seq<Entry>, b: seq<Entry>)
    requires SameLines(a, b)
    ensures |a| == |b|
  {
    forall e: Entry ensures multiset(a)[e] == multiset(b)[e] {
      CountOfEntry(a, e.0, e.1);
      CountOfEntry(b, e.0, e.1);
    }
    assert multiset(a) == multiset(b);
    assert |multiset(a)| == |a| && |multiset(b)| == |b|;
  }

  /** Lines under a name come from a file of that name that adds some. */
  lemma {:induction false} AddedSomewhere(files: seq<FileChange>, file: string) returns (i: nat)
    requires LinesOf(Expected(files), file) != []
    ensures i < |files| && files[i].name == Some(file) && FileEntries(files[i]) != []
    decreases |files|
  {
    ExpectedFirst(files, file);
    FileLines(files[0], file);
    if LinesOf(FileEntries(files[0]), file) != [] {
      i := 0;
    } else {
      i := AddedSomewhere(files[1..], file);
      i := i + 1;
    }
  }

  lemma {:induction false} ExpectedAt(files: seq<FileChange>, i: nat)
    requires i < |files| && files[i].name.Some? && FileEntries(files[i]) != []
    ensures LinesOf(Expected(files), files[i].name.value) != []
    decreases |files|
  {
    var file := files[i].name.value;
    ExpectedFirst(files, file);
    FileLines(files[0], file);
    if i > 0 {
      ExpectedAt(files[1..], i - 1);
    }
  }

  lemma AddsSome(f: FileChange, j: nat)
    requires f.name.Some? && j < |f.chunks| && f.chunks[j].added != []
    ensures FileEntries(f) != []
  {
    var xs := ChunkEntries(f.name.value, f.chunks);
    assert xs[j] != [];
    PieceNotEmpty(xs, j);
  }

  lemma {:induction false} PieceNotEmpty<T>(xs: seq<seq<T>>, j: nat)
    requires j < |xs| && xs[j] != []
    ensures Flatten(xs) != []
  {
    if j > 0 {
      PieceNotEmpty(xs[1..], j - 1);
    }
  }

  /** The lines of a file whose name is not ordinary are missing under that name, or they are those of
      a file of a shorter name, itself not ordinary, whose lines are then missing. */
  lemma {:induction false} SomeNameMissing(files: seq<FileChange>, i: nat)
    requires DiffOk(files) && i < |files| && files[i].name.Some? && !Ordinary(files[i].name.value)
    requires FileEntries(files[i]) != []
    ensures !SameLines(Expected(AllRenamed(files)), Expected(files))
    decreases if files[i].name.Some? then |files[i].name.value| else 0
  {
    var file := files[i].name.value;
    ExpectedAt(files, i);
    if LinesOf(Expected(AllRenamed(files)), file) != [] {
      var k := AddedSomewhere(AllRenamed(files), file);
      RecordedLength(files[k].name.value);
      SameSize(files[k]);
      SomeNameMissing(files, k);
    }
  }

  lemma SameSize(f: FileChange)
    requires FileEntries(Renamed(f)) != []
    ensures f.name.Some? && FileEntries(f) != []
  {
    var now := ChunkEntries(Recorded(f.name.value), f.chunks);
    if forall j :: 0 <= j < |f.chunks| ==> f.chunks[j].added == [] {
      NothingAdded(now);
    } else {
      var j :| 0 <= j < |f.chunks| && f.chunks[j].added != [];
      AddsSome(f, j);
    }
  }

  /** The table is right for every file exactly when no added line begins with two pluses and nothing
      is added to a file whose name has a space or must be quoted. */
  lemma AddedLinesIff(files: seq<FileChange>)
    requires DiffOk(files)
    ensures SameLines(Added(Diff(files)), Expected(files)) <==> Clear(files) && NamesClear(files)
  {
    if !Clear(files) {
      DiffAddable(files);
      if SameLines(Added(Diff(files)), Expected(files)) {
        SameLinesSameSize(Added(Diff(files)), Expected(files));
      }
    } else {
      AddedIsExpected(files);
      if !NamesClear(files) {
        var i :| 0 <= i < |files| && !NameClear(files[i]);
        var j :| 0 <= j < |files[i].chunks| && files[i].chunks[j].added != [];
        AddsSome(files[i], j);
        SomeNameMissing(files, i);
      }
    }
  }
}
