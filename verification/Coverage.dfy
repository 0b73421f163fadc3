/** Comparing added lines with a coverage profile (internal/coverage/coverage.go:113-203). */
module Coverage {
  import opened Common
  import opened Sorting

  datatype Block = Block(file: string, startLine: int, endLine: int, count: int) {
    predicate Holds(path: string, line: int) { file == path && startLine <= line <= endLine }
  }

  /** An inclusive range of lines. */
  datatype LineRange = LineRange(from: int, to: int)

  datatype File = File(path: string, changed: nat, notRun: nat, notRunLines: seq<LineRange>)

  datatype Report = Report(files: seq<File>, changed: nat, notRun: nat)

  // ---------- what is meant ----------

  /** The line is executable: some block of the file holds it. */
  predicate InBlock(blocks: seq<Block>, path: string, line: int) {
    exists b :: b in blocks && b.Holds(path, line)
  }

  predicate Ran(blocks: seq<Block>, path: string, line: int) {
    exists b :: b in blocks && b.Holds(path, line) && b.count > 0
  }

  predicate NotRun(blocks: seq<Block>, path: string, line: int) {
    InBlock(blocks, path, line) && !Ran(blocks, path, line)
  }

  function ChangedLines(blocks: seq<Block>, path: string, lines: seq<int>): seq<int> {
    Filter(lines, l => InBlock(blocks, path, l))
  }

  function NotRunLines(blocks: seq<Block>, path: string, lines: seq<int>): seq<int> {
    Filter(lines, l => NotRun(blocks, path, l))
  }

  function BlocksOf(blocks: seq<Block>, path: string): seq<Block> {
    Filter(blocks, (b: Block) => b.file == path)
  }

  function Below(a: int, b: int): bool { a < b }

  /** A file's entry in the report. */
  function FileOf(blocks: seq<Block>, path: string, lines: seq<int>): File {
    var notRun := NotRunLines(blocks, path, lines);
    File(path, |ChangedLines(blocks, path, lines)|, |notRun|, Collapse(Sort(Below, notRun)))
  }

  /** The entries of the files with an executable changed line, in the order of paths. */
  function FilesOf(blocks: seq<Block>, added: map<string, seq<int>>, paths: seq<string>): seq<File>
    requires forall p :: p in paths ==> p in added
  {
    if paths == [] then []
    else
      var last := paths[|paths| - 1];
      WithFile(FilesOf(blocks, added, paths[..|paths| - 1]), FileOf(blocks, last, added[last]))
  }

  function TotalChanged(files: seq<File>): nat {
    if files == [] then 0 else TotalChanged(files[..|files| - 1]) + files[|files| - 1].changed
  }

  function TotalNotRun(files: seq<File>): nat {
    if files == [] then 0 else TotalNotRun(files[..|files| - 1]) + files[|files| - 1].notRun
  }

  // ---------- ranges ----------

  /** The loop of ranges over sorted lines: a line extends the last range just past it. */
  function Collapse(s: seq<int>): seq<LineRange> {
    if s == [] then [] else Extend(Collapse(s[..|s| - 1]), s[|s| - 1])
  }

  function Extend(out: seq<LineRange>, l: int): seq<LineRange> {
    var n := |out|;
    if n > 0 && out[n - 1].to == l - 1 then out[..n - 1] + [LineRange(out[n - 1].from, l)]
    else out + [LineRange(l, l)]
  }

  method Ranges(lines: seq<int>) returns (out: seq<LineRange>)
    ensures out == Collapse(Sort(Below, lines))
  {
    var sorted := Sort(Below, lines);
    out := [];
    for i := 0 to |sorted|
      invariant out == Collapse(sorted[..i])
    {
      assert sorted[..i + 1][..i] == sorted[..i];
      var l, n := sorted[i], |out|;
      if n > 0 && out[n - 1].to == l - 1 {
        out := out[..n - 1] + [LineRange(out[n - 1].from, l)];
      } else {
        out := out + [LineRange(l, l)];
      }
    }
    assert sorted[..|sorted|] == sorted;
  }

  function Size(out: seq<LineRange>): int {
    if out == [] then 0 else Size(out[..|out| - 1]) + out[|out| - 1].to - out[|out| - 1].from + 1
  }

  /** The line lies in one of the ranges. */
  predicate Covers(out: seq<LineRange>, line: int) {
    out != [] && (Covers(out[..|out| - 1], line) || out[|out| - 1].from <= line <= out[|out| - 1].to)
  }

  predicate Ascending(s: seq<int>) { forall i, j :: 0 <= i < j < |s| ==> s[i] <= s[j] }

  predicate Distinct(s: seq<int>) { forall i, j :: 0 <= i < j < |s| ==> s[i] != s[j] }

  /** Sorted, disjoint, and with at least one line missing between any two. */
  predicate Separated(out: seq<LineRange>) {
    && (forall i :: 0 <= i < |out| ==> out[i].from <= out[i].to)
    && (forall i, j :: 0 <= i < j < |out| ==> out[i].to + 1 < out[j].from)
  }

  lemma ExtendCovers(out: seq<LineRange>, l: int, line: int)
    requires out != [] ==> out[|out| - 1].from <= out[|out| - 1].to
    ensures Covers(Extend(out, l), line) <==> Covers(out, line) || line == l
    ensures Size(Extend(out, l)) == Size(out) + 1
  {
    var n, after := |out|, Extend(out, l);
    if n > 0 && out[n - 1].to == l - 1 {
      assert after[..n - 1] == out[..n - 1];
    } else {
      assert after[..n] == out;
    }
  }

  lemma {:induction false} CollapseShape(s: seq<int>)
    requires Ascending(s)
    ensures s == [] <==> Collapse(s) == []
    ensures s != [] ==> Collapse(s)[|Collapse(s)| - 1].to == s[|s| - 1]
    ensures forall i :: 0 <= i < |Collapse(s)| ==> Collapse(s)[i].from <= Collapse(s)[i].to
  {
    if s != [] {
      CollapseShape(s[..|s| - 1]);
    }
  }

  /** The ranges hold as many lines as they were made from, and, of ascending lines, exactly those. */
  lemma {:induction false} CollapseKeeps(s: seq<int>, line: int)
    requires Ascending(s)
    ensures Size(Collapse(s)) == |s|
    ensures Covers(Collapse(s), line) <==> line in s
  {
    if s != [] {
      var front, l := s[..|s| - 1], s[|s| - 1];
      CollapseKeeps(front, line);
      CollapseShape(front);
      ExtendCovers(Collapse(front), l, line);
      assert line in s <==> line in front || line == l;
    }
  }

  lemma DistinctGrows(s: seq<int>)
    requires Ascending(s) && s != []
    ensures Distinct(s) <==> Distinct(s[..|s| - 1]) && (|s| == 1 || s[|s| - 2] != s[|s| - 1])
  {
    var front := s[..|s| - 1];
    if Distinct(front) && (|s| == 1 || s[|s| - 2] != s[|s| - 1]) {
      forall i, j | 0 <= i < j < |s| ensures s[i] != s[j] {
        if j < |front| {
          assert front[i] != front[j];
        }
      }
    } else if !Distinct(front) {
      var i, j :| 0 <= i < j < |front| && front[i] == front[j];
      assert s[i] == s[j];
    }
  }

  /** The ranges are apart exactly if no line comes twice. */
  lemma {:induction false} SeparatedIff(s: seq<int>)
    requires Ascending(s)
    ensures Separated(Collapse(s)) <==> Distinct(s)
  {
    if s != [] {
      var front, l := s[..|s| - 1], s[|s| - 1];
      SeparatedIff(front);
      CollapseShape(front);
      DistinctGrows(s);
      ExtendSeparated(Collapse(front), l);
    }
  }

  lemma ExtendSeparated(out: seq<LineRange>, l: int)
    requires forall i :: 0 <= i < |out| ==> out[i].from <= out[i].to
    requires out != [] ==> out[|out| - 1].to <= l
    ensures Separated(Extend(out, l)) <==> Separated(out) && (out == [] || out[|out| - 1].to != l)
  {
    var n, after := |out|, Extend(out, l);
    if n > 0 {
      assert forall i :: 0 <= i < n - 1 ==> after[i] == out[i];
      assert after[n - 1].from == out[n - 1].from;
      if Separated(after) && out[n - 1].to != l - 1 {
        assert after[n - 1].to + 1 < after[n].from;
      }
    }
  }

  lemma BelowStrictTotal()
    ensures StrictTotal(Below)
  {
  }

  lemma SortedAscends(lines: seq<int>)
    ensures Ascending(Sort(Below, lines)) && |Sort(Below, lines)| == |lines|
    ensures forall l :: l in Sort(Below, lines) <==> l in lines
    ensures Distinct(Sort(Below, lines)) <==> Distinct(lines)
  {
    BelowStrictTotal();
    SortSorts(Below, lines);
    var s := Sort(Below, lines);
    assert |multiset(s)| == |multiset(lines)|;
    forall i, j | 0 <= i < j < |s| ensures s[i] <= s[j] {
      assert !Below(s[j], s[i]);
    }
    forall l ensures l in s <==> l in lines {
      assert l in multiset(s) <==> l in multiset(lines);
    }
    DistinctCounts(s);
    DistinctCounts(lines);
  }

  lemma {:induction false} DistinctCounts(s: seq<int>)
    ensures Distinct(s) <==> forall x :: multiset(s)[x] <= 1
  {
    if s != [] {
      var front, l := s[..|s| - 1], s[|s| - 1];
      assert s == front + [l];
      DistinctCounts(front);
      if Distinct(s) {
        assert l !in front;
        assert multiset(front)[l] == 0;
      } else if i, j :| 0 <= i < j < |s| && s[i] == s[j] {
        if j < |front| {
          assert front[i] == front[j];
          var x :| multiset(front)[x] > 1;
          assert multiset(s)[x] >= multiset(front)[x];
        } else {
          assert l in front;
          assert multiset(s)[l] >= 2;
        }
      }
    }
  }

  /** For every list of lines: the ranges cover exactly its lines, their sizes add up to its length,
      and they are sorted, disjoint and non-adjacent exactly if no line comes twice. */
  lemma RangesAreExact(lines: seq<int>, line: int)
    ensures
      var out := Collapse(Sort(Below, lines));
      && (Covers(out, line) <==> line in lines)
      && Size(out) == |lines|
      && (Separated(out) <==> Distinct(lines))
  {
    SortedAscends(lines);
    CollapseKeeps(Sort(Below, lines), line);
    SeparatedIff(Sort(Below, lines));
  }

  // ---------- the comparison ----------

  /** The inner loop: whether any block of the file holds the line, and whether any that does ran. */
  method Look(fileBlocks: seq<Block>, path: string, line: int) returns (inBlock: bool, ran: bool)
    requires forall b :: b in fileBlocks ==> b.file == path
    ensures inBlock == InBlock(fileBlocks, path, line) && ran == Ran(fileBlocks, path, line)
  {
    inBlock, ran := false, false;
    for i := 0 to |fileBlocks|
      invariant inBlock <==> exists k :: 0 <= k < i && fileBlocks[k].Holds(path, line)
      invariant ran <==> exists k :: 0 <= k < i && fileBlocks[k].Holds(path, line) && fileBlocks[k].count > 0
    {
      var b := fileBlocks[i];
      if b.startLine <= line <= b.endLine {
        inBlock := true;
        if b.count > 0 {
          ran := true;
        }
      }
    }
  }

  /** One file's lines against its blocks. */
  method CompareFile(blocks: seq<Block>, fileBlocks: seq<Block>, path: string, lines: seq<int>) returns (f: File)
    requires fileBlocks == BlocksOf(blocks, path)
    ensures f == FileOf(blocks, path, lines)
  {
    var changed, notRun := 0, [];
    SameFileBlocks(blocks, path);
    for i := 0 to |lines|
      invariant changed == |ChangedLines(blocks, path, lines[..i])|
      invariant notRun == NotRunLines(blocks, path, lines[..i])
    {
      var line := lines[i];
      assert lines[..i + 1][..i] == lines[..i];
      FileBlocksDecide(blocks, path, line);
      var inBlock, ran := Look(fileBlocks, path, line);
      if inBlock {
        changed := changed + 1;
        if !ran {
          notRun := notRun + [line];
        }
      }
    }
    assert lines[..|lines|] == lines;
    var ranges := Ranges(notRun);
    f := File(path, changed, |notRun|, ranges);
  }

  lemma {:induction false} SameFileBlocks(blocks: seq<Block>, path: string)
    ensures forall b :: b in BlocksOf(blocks, path) <==> b in blocks && b.file == path
  {
    if blocks != [] {
      SameFileBlocks(blocks[..|blocks| - 1], path);
    }
  }

  lemma FileBlocksDecide(blocks: seq<Block>, path: string, line: int)
    ensures
      var own := BlocksOf(blocks, path);
      InBlock(own, path, line) == InBlock(blocks, path, line) && Ran(own, path, line) == Ran(blocks, path, line)
  {
    SameFileBlocks(blocks, path);
  }

  /** The keys, in the order of strings. */
  method SortedKeys(added: map<string, seq<int>>) returns (paths: seq<string>)
    ensures Strict(Less, paths) && forall p :: p in paths <==> p in added
  {
    paths := [];
    var left := added.Keys;
    while left != {}
      invariant forall p :: p in added <==> p in left || p in paths
      invariant forall p :: p in paths ==> p !in left
      invariant forall i, j :: 0 <= i < j < |paths| ==> paths[i] != paths[j]
      decreases |left|
    {
      var p :| p in left;
      left := left - {p};
      paths := paths + [p];
    }
    SortDistinct(paths);
    paths := Sort(Less, paths);
  }

  lemma SortDistinct(paths: seq<string>)
    requires forall i, j :: 0 <= i < j < |paths| ==> paths[i] != paths[j]
    ensures Strict(Less, Sort(Less, paths)) && forall p :: p in Sort(Less, paths) <==> p in paths
  {
    LessStrictTotal();
    SortSorts(Less, paths);
    var s := Sort(Less, paths);
    forall p ensures p in s <==> p in paths {
      assert p in multiset(s) <==> p in multiset(paths);
    }
    forall i, j | 0 <= i < j < |s| ensures Less(s[i], s[j]) {
      if s[i] == s[j] {
        TwiceInSorted(s, i, j);
        OnceEach(paths, s[i]);
      }
    }
  }

  lemma TwiceInSorted(s: seq<string>, i: nat, j: nat)
    requires i < j < |s| && s[i] == s[j]
    ensures multiset(s)[s[i]] >= 2
  {
    assert s == s[..j] + [s[j]] + s[j + 1..];
    assert s[i] in s[..j];
  }

  lemma {:induction false} OnceEach(s: seq<string>, x: string)
    requires forall i, j :: 0 <= i < j < |s| ==> s[i] != s[j]
    ensures multiset(s)[x] <= 1
  {
    if s != [] {
      assert s == s[..|s| - 1] + [s[|s| - 1]];
      OnceEach(s[..|s| - 1], x);
      assert s[|s| - 1] !in s[..|s| - 1];
    }
  }

  /** The report, whatever order the map yields its keys in. */
  ghost predicate Compares(r: Report, added: map<string, seq<int>>, blocks: seq<Block>) {
    exists paths ::
      && Strict(Less, paths) && (forall p :: p in paths <==> p in added)
      && r.files == FilesOf(blocks, added, paths)
      && r.changed == TotalChanged(r.files) && r.notRun == TotalNotRun(r.files)
  }

  /** One path of the outer loop. */
  method CompareNext(blocks: seq<Block>, path: string, lines: seq<int>, before: seq<File>, changedBefore: nat, notRunBefore: nat)
    returns (files: seq<File>, changed: nat, notRun: nat)
    requires changedBefore == TotalChanged(before) && notRunBefore == TotalNotRun(before)
    ensures files == WithFile(before, FileOf(blocks, path, lines))
    ensures changed == TotalChanged(files) && notRun == TotalNotRun(files)
  {
    var fileBlocks := BlocksOf(blocks, path);
    if |fileBlocks| == 0 {
      NoBlocks(blocks, path, lines);
      return before, changedBefore, notRunBefore;
    }
    var f := CompareFile(blocks, fileBlocks, path, lines);
    if f.changed == 0 {
      return before, changedBefore, notRunBefore;
    }
    TotalsNext(before, f);
    return before + [f], changedBefore + f.changed, notRunBefore + f.notRun;
  }

  method Compare(added: map<string, seq<int>>, blocks: seq<Block>) returns (r: Report)
    ensures Compares(r, added, blocks)
  {
    var paths := SortedKeys(added);
    var files, changed, notRun := [], 0, 0;
    for i := 0 to |paths|
      invariant forall p :: p in paths ==> p in added
      invariant files == FilesOf(blocks, added, paths[..i])
      invariant changed == TotalChanged(files) && notRun == TotalNotRun(files)
    {
      FilesNext(blocks, added, paths, i);
      files, changed, notRun := CompareNext(blocks, paths[i], added[paths[i]], files, changed, notRun);
    }
    r := Report(files, changed, notRun);
    WholeReport(r, added, blocks, paths);
  }

  lemma WholeReport(r: Report, added: map<string, seq<int>>, blocks: seq<Block>, paths: seq<string>)
    requires Strict(Less, paths) && forall p :: p in paths <==> p in added
    requires r.files == FilesOf(blocks, added, paths[..|paths|])
    requires r.changed == TotalChanged(r.files) && r.notRun == TotalNotRun(r.files)
    ensures Compares(r, added, blocks)
  {
    assert paths[..|paths|] == paths;
  }

  /** A file without an executable changed line is left out. */
  function WithFile(files: seq<File>, f: File): seq<File> { if f.changed == 0 then files else files + [f] }

  lemma FilesNext(blocks: seq<Block>, added: map<string, seq<int>>, paths: seq<string>, i: nat)
    requires i < |paths| && forall p :: p in paths ==> p in added
    ensures
      FilesOf(blocks, added, paths[..i + 1]) == WithFile(FilesOf(blocks, added, paths[..i]), FileOf(blocks, paths[i], added[paths[i]]))
  {
    assert paths[..i + 1][..i] == paths[..i];
  }

  lemma TotalsNext(files: seq<File>, f: File)
    ensures TotalChanged(files + [f]) == TotalChanged(files) + f.changed
    ensures TotalNotRun(files + [f]) == TotalNotRun(files) + f.notRun
  {
    assert (files + [f])[..|files|] == files;
  }

  lemma {:induction false} NoBlocks(blocks: seq<Block>, path: string, lines: seq<int>)
    requires BlocksOf(blocks, path) == []
    ensures ChangedLines(blocks, path, lines) == []
  {
    SameFileBlocks(blocks, path);
    if lines != [] {
      NoBlocks(blocks, path, lines[..|lines| - 1]);
    }
  }

  // ---------- what a report says ----------

  lemma {:induction false} FilesAre(blocks: seq<Block>, added: map<string, seq<int>>, paths: seq<string>, f: File)
    requires forall p :: p in paths ==> p in added
    ensures f in FilesOf(blocks, added, paths) <==>
      f.path in paths && f.changed > 0 && f == FileOf(blocks, f.path, added[f.path])
  {
    if paths != [] {
      var front, last := paths[..|paths| - 1], paths[|paths| - 1];
      FilesAre(blocks, added, front, f);
      assert f.path in paths <==> f.path in front || f.path == last;
    }
  }

  /** Whatever the report: it has an entry for exactly the changed files with an executable added
      line, and that entry counts the added lines in some block, counts those only in blocks that
      never ran, and covers exactly these with ranges that hold as many. */
  lemma ReportMeans(r: Report, added: map<string, seq<int>>, blocks: seq<Block>, f: File, line: int)
    requires Compares(r, added, blocks)
    ensures f in r.files ==> f.path in added
    ensures f.path in added ==>
      var lines := added[f.path];
      && (f in r.files <==> f.changed > 0 && f == FileOf(blocks, f.path, lines))
      && (f in r.files ==>
            && f.changed == |Filter(lines, l => exists b :: b in blocks && b.file == f.path && b.startLine <= l <= b.endLine)|
            && (Covers(f.notRunLines, line) <==>
                  && line in lines
                  && (exists b :: b in blocks && b.file == f.path && b.startLine <= line <= b.endLine)
                  && (forall b :: b in blocks && b.file == f.path && b.startLine <= line <= b.endLine ==> b.count <= 0))
            && Size(f.notRunLines) == f.notRun <= f.changed
            && (Distinct(lines) ==> Separated(f.notRunLines)))
  {
    var paths :|
      && Strict(Less, paths) && (forall p :: p in paths <==> p in added)
      && r.files == FilesOf(blocks, added, paths)
      && r.changed == TotalChanged(r.files) && r.notRun == TotalNotRun(r.files);
    FilesAre(blocks, added, paths, f);
    if f in r.files {
      EntryMeans(blocks, f.path, added[f.path], line);
    }
  }

  lemma EntryMeans(blocks: seq<Block>, path: string, lines: seq<int>, line: int)
    ensures
      var f := FileOf(blocks, path, lines);
      && f.changed == |Filter(lines, l => exists b :: b in blocks && b.file == path && b.startLine <= l <= b.endLine)|
      && (Covers(f.notRunLines, line) <==>
            && line in lines
            && (exists b :: b in blocks && b.file == path && b.startLine <= line <= b.endLine)
            && (forall b :: b in blocks && b.file == path && b.startLine <= line <= b.endLine ==> b.count <= 0))
      && Size(f.notRunLines) == f.notRun <= f.changed
      && (Distinct(lines) ==> Separated(f.notRunLines))
  {
    RangesAreExact(NotRunLines(blocks, path, lines), line);
    NotRunAre(blocks, path, lines, line);
    SameFilter(lines, l => InBlock(blocks, path, l),
               l => exists b :: b in blocks && b.file == path && b.startLine <= l <= b.endLine);
    NotRunIs(blocks, path, line);
    if Distinct(lines) {
      NotRunDistinct(blocks, path, lines);
    }
  }

  lemma NotRunIs(blocks: seq<Block>, path: string, line: int)
    ensures NotRun(blocks, path, line) <==>
      && (exists b :: b in blocks && b.file == path && b.startLine <= line <= b.endLine)
      && (forall b :: b in blocks && b.file == path && b.startLine <= line <= b.endLine ==> b.count <= 0)
  {
  }

  lemma {:induction false} SameFilter<T>(s: seq<T>, p: T -> bool, q: T -> bool)
    requires forall x :: x in s ==> p(x) == q(x)
    ensures Filter(s, p) == Filter(s, q)
  {
    if s != [] {
      assert s[|s| - 1] in s;
      assert forall x :: x in s[..|s| - 1] ==> x in s;
      SameFilter(s[..|s| - 1], p, q);
    }
  }

  lemma HeldBySome(blocks: seq<Block>, path: string, line: int)
    ensures InBlock(blocks, path, line) <==> exists b :: b in blocks && b.file == path && b.startLine <= line <= b.endLine
  {
  }

  ghost predicate AnyExecutable(blocks: seq<Block>, path: string, lines: seq<int>) {
    exists line :: line in lines && InBlock(blocks, path, line)
  }

  /** The report lists a file exactly if some block holds one of its added lines, and in the order of paths. */
  lemma ReportLists(r: Report, added: map<string, seq<int>>, blocks: seq<Block>, path: string)
    requires Compares(r, added, blocks)
    ensures (exists f :: f in r.files && f.path == path) <==> path in added && AnyExecutable(blocks, path, added[path])
    ensures InPathOrder(r.files)
  {
    var paths :| Strict(Less, paths) && (forall p :: p in paths <==> p in added) && r.files == FilesOf(blocks, added, paths);
    FileListed(blocks, added, paths, path);
    InOrder(blocks, added, paths);
  }

  predicate InPathOrder(files: seq<File>) { forall i, j :: 0 <= i < j < |files| ==> Less(files[i].path, files[j].path) }

  /** Its totals are the sums over the files. */
  lemma ReportTotals(r: Report, added: map<string, seq<int>>, blocks: seq<Block>)
    requires Compares(r, added, blocks)
    ensures r.changed == Sum(ChangedCounts(r.files))
    ensures r.notRun == Sum(NotRunCounts(r.files))
  {
    TotalsAre(r.files);
  }

  lemma FileListed(blocks: seq<Block>, added: map<string, seq<int>>, paths: seq<string>, path: string)
    requires forall p :: p in paths <==> p in added
    ensures (exists f :: f in FilesOf(blocks, added, paths) && f.path == path)
      <==> path in added && AnyExecutable(blocks, path, added[path])
  {
    if path in added {
      FilesAre(blocks, added, paths, FileOf(blocks, path, added[path]));
      ChangedSome(blocks, path, added[path]);
    }
    forall f | f in FilesOf(blocks, added, paths) && f.path == path
      ensures path in added && f == FileOf(blocks, path, added[path]) && f.changed > 0
    {
      FilesAre(blocks, added, paths, f);
    }
  }

  function Sum(counts: seq<nat>): nat { if counts == [] then 0 else counts[0] + Sum(counts[1..]) }

  lemma {:induction false} SumLast(counts: seq<nat>)
    requires counts != []
    ensures Sum(counts) == Sum(counts[..|counts| - 1]) + counts[|counts| - 1]
  {
    var n := |counts| - 1;
    if n > 0 {
      SumLast(counts[1..]);
      assert counts[1..][..n - 1] == counts[..n][1..];
    } else {
      assert counts[..0] == [] && counts[1..] == [];
    }
  }

  function ChangedCounts(files: seq<File>): seq<nat> {
    seq(|files|, i requires 0 <= i < |files| => files[i].changed)
  }

  function NotRunCounts(files: seq<File>): seq<nat> {
    seq(|files|, i requires 0 <= i < |files| => files[i].notRun)
  }

  lemma {:induction false} TotalsAre(files: seq<File>)
    ensures TotalChanged(files) == Sum(ChangedCounts(files)) && TotalNotRun(files) == Sum(NotRunCounts(files))
  {
    if files != [] {
      var n := |files| - 1;
      TotalsAre(files[..n]);
      SumLast(ChangedCounts(files));
      SumLast(NotRunCounts(files));
      assert ChangedCounts(files)[..n] == ChangedCounts(files[..n]);
      assert NotRunCounts(files)[..n] == NotRunCounts(files[..n]);
    }
  }

  lemma {:induction false} ChangedSome(blocks: seq<Block>, path: string, lines: seq<int>)
    ensures ChangedLines(blocks, path, lines) != [] <==> AnyExecutable(blocks, path, lines)
  {
    if lines != [] {
      var front, last := lines[..|lines| - 1], lines[|lines| - 1];
      ChangedSome(blocks, path, front);
      AnyNext(blocks, path, front, last);
      assert lines == front + [last];
    }
  }

  lemma AnyNext(blocks: seq<Block>, path: string, front: seq<int>, last: int)
    ensures AnyExecutable(blocks, path, front + [last]) <==> AnyExecutable(blocks, path, front) || InBlock(blocks, path, last)
  {
    assert forall l :: l in front + [last] <==> l in front || l == last;
  }

  lemma {:induction false} InOrder(blocks: seq<Block>, added: map<string, seq<int>>, paths: seq<string>)
    requires Strict(Less, paths) && forall p :: p in paths ==> p in added
    ensures InPathOrder(FilesOf(blocks, added, paths))
  {
    if paths != [] {
      var front, last := paths[..|paths| - 1], paths[|paths| - 1];
      var before := FilesOf(blocks, added, front);
      InOrder(blocks, added, front);
      forall i | 0 <= i < |before| ensures Less(before[i].path, last) {
        FilesAre(blocks, added, front, before[i]);
        var k :| 0 <= k < |front| && front[k] == before[i].path;
        assert Less(paths[k], paths[|paths| - 1]);
      }
    }
  }

  lemma {:induction false} NotRunAre(blocks: seq<Block>, path: string, lines: seq<int>, line: int)
    ensures line in NotRunLines(blocks, path, lines) <==> line in lines && NotRun(blocks, path, line)
    ensures |NotRunLines(blocks, path, lines)| <= |ChangedLines(blocks, path, lines)|
  {
    if lines != [] {
      var front := lines[..|lines| - 1];
      NotRunAre(blocks, path, front, line);
      assert line in lines <==> line in front || line == lines[|lines| - 1];
    }
  }

  lemma {:induction false} NotRunDistinct(blocks: seq<Block>, path: string, lines: seq<int>)
    requires Distinct(lines)
    ensures Distinct(NotRunLines(blocks, path, lines))
  {
    if lines != [] {
      var front, last := lines[..|lines| - 1], lines[|lines| - 1];
      NotRunDistinct(blocks, path, front);
      NotRunAre(blocks, path, front, last);
      assert last !in front;
    }
  }

  // ---------- changing the profile ----------

  /** Two profiles hold, and ran, the same lines of a file. */
  ghost predicate SameLines(a: seq<Block>, b: seq<Block>) {
    forall path, line :: InBlock(a, path, line) == InBlock(b, path, line) && Ran(a, path, line) == Ran(b, path, line)
  }

  lemma {:induction false} SameNotRun(a: seq<Block>, b: seq<Block>, path: string, lines: seq<int>)
    requires SameLines(a, b)
    ensures ChangedLines(a, path, lines) == ChangedLines(b, path, lines)
    ensures NotRunLines(a, path, lines) == NotRunLines(b, path, lines)
  {
    if lines != [] {
      SameNotRun(a, b, path, lines[..|lines| - 1]);
    }
  }

  lemma {:induction false} SameFiles(a: seq<Block>, b: seq<Block>, added: map<string, seq<int>>, paths: seq<string>)
    requires SameLines(a, b) && forall p :: p in paths ==> p in added
    ensures FilesOf(a, added, paths) == FilesOf(b, added, paths)
  {
    if paths != [] {
      var last := paths[|paths| - 1];
      SameFiles(a, b, added, paths[..|paths| - 1]);
      SameNotRun(a, b, last, added[last]);
    }
  }

  /** The order and repetition of blocks do not matter: profiles of the same blocks give one report. */
  lemma BlockOrderIrrelevant(a: seq<Block>, b: seq<Block>, added: map<string, seq<int>>, r: Report, s: Report)
    requires forall x :: x in a <==> x in b
    requires Compares(r, added, a) && Compares(s, added, b)
    ensures r == s
  {
    var ps :|
      && Strict(Less, ps) && (forall p :: p in ps <==> p in added) && r.files == FilesOf(a, added, ps)
      && r.changed == TotalChanged(r.files) && r.notRun == TotalNotRun(r.files);
    var qs :|
      && Strict(Less, qs) && (forall p :: p in qs <==> p in added) && s.files == FilesOf(b, added, qs)
      && s.changed == TotalChanged(s.files) && s.notRun == TotalNotRun(s.files);
    LessStrictTotal();
    StrictUnique(Less, ps, qs);
    SameFiles(a, b, added, ps);
  }

  /** Blocks over lines that are executable already. */
  ghost predicate OverCovered(blocks: seq<Block>, more: seq<Block>) {
    forall path, line :: InBlock(more, path, line) ==> InBlock(blocks, path, line)
  }

  lemma InEither(blocks: seq<Block>, more: seq<Block>, path: string, line: int)
    ensures InBlock(blocks + more, path, line) <==> InBlock(blocks, path, line) || InBlock(more, path, line)
    ensures Ran(blocks + more, path, line) <==> Ran(blocks, path, line) || Ran(more, path, line)
  {
    assert forall b :: b in blocks + more <==> b in blocks || b in more;
  }

  lemma {:induction false} MoreRunsInFile(blocks: seq<Block>, more: seq<Block>, path: string, lines: seq<int>)
    requires OverCovered(blocks, more)
    ensures |ChangedLines(blocks + more, path, lines)| == |ChangedLines(blocks, path, lines)|
    ensures |NotRunLines(blocks + more, path, lines)| <= |NotRunLines(blocks, path, lines)|
  {
    if lines != [] {
      MoreRunsInFile(blocks, more, path, lines[..|lines| - 1]);
      InEither(blocks, more, path, lines[|lines| - 1]);
    }
  }

  /** The same files with the same executable lines, none of them with more lines not run. */
  predicate NoWorse(files: seq<File>, was: seq<File>) {
    && |files| == |was|
    && forall i :: 0 <= i < |files| ==>
         files[i].path == was[i].path && files[i].changed == was[i].changed && files[i].notRun <= was[i].notRun
  }

  lemma {:induction false} NoWorseTotals(files: seq<File>, was: seq<File>)
    requires NoWorse(files, was)
    ensures TotalChanged(files) == TotalChanged(was) && TotalNotRun(files) <= TotalNotRun(was)
  {
    if files != [] {
      NoWorseTotals(files[..|files| - 1], was[..|was| - 1]);
    }
  }

  lemma {:induction false} NoWorseFiles(blocks: seq<Block>, more: seq<Block>, added: map<string, seq<int>>, paths: seq<string>)
    requires OverCovered(blocks, more) && forall p :: p in paths ==> p in added
    ensures NoWorse(FilesOf(blocks + more, added, paths), FilesOf(blocks, added, paths))
  {
    if paths != [] {
      var last := paths[|paths| - 1];
      NoWorseFiles(blocks, more, added, paths[..|paths| - 1]);
      MoreRunsInFile(blocks, more, last, added[last]);
    }
  }

  /** Another test binary's blocks over the same lines: the report lists the same files with the same
      counts of executable lines, and no count of lines not run is higher. */
  lemma MoreRuns(r: Report, s: Report, added: map<string, seq<int>>, blocks: seq<Block>, more: seq<Block>)
    requires OverCovered(blocks, more)
    requires Compares(r, added, blocks) && Compares(s, added, blocks + more)
    ensures NoWorse(s.files, r.files) && s.changed == r.changed && s.notRun <= r.notRun
  {
    var ps :|
      && Strict(Less, ps) && (forall p :: p in ps <==> p in added) && r.files == FilesOf(blocks, added, ps)
      && r.changed == TotalChanged(r.files) && r.notRun == TotalNotRun(r.files);
    var qs :|
      && Strict(Less, qs) && (forall p :: p in qs <==> p in added) && s.files == FilesOf(blocks + more, added, qs)
      && s.changed == TotalChanged(s.files) && s.notRun == TotalNotRun(s.files);
    LessStrictTotal();
    StrictUnique(Less, ps, qs);
    NoWorseFiles(blocks, more, added, ps);
    NoWorseTotals(s.files, r.files);
  }
}
