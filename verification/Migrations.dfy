/** Applying migrations once each, in order, with failure at any step
    (internal/store/migrate.go:56-212). */
module Migrations {
  import opened Common

  type Version = string

  datatype Migration = Migration(version: Version, sql: string, checksum: string)

  /** records is schema_migrations, once that table exists; effects lists the migrations whose SQL
      has taken effect, in the order they were committed. */
  datatype Db = Db(table: bool, records: map<Version, string>, effects: seq<Version>)

  datatype Failure =
    | NoPool | NoConnection | NoLock | NoTable | NoRead
    | Changed(version: Version, recorded: string, found: string)
    | NotBegun(version: Version) | NotRun(version: Version) | NotRecorded(version: Version) | NotCommitted(version: Version)

  /** Where one migration's transaction fails, if it does. After CommitLost it is committed all the
      same: the answer did not arrive. */
  datatype Fault = Fine | BeginFails | SqlFails | RecordFails | CommitFails | CommitLost

  /** What goes wrong at migration i, given what does at the first few. */
  function FaultAt(faults: seq<Fault>, i: nat): Fault { if i < |faults| then faults[i] else Fine }

  /** Where a run fails before its first migration. */
  datatype Start = Started | WithoutPool | AcquireFails | LockFails | TableFails | ReadFails

  datatype Outcome = Outcome(db: Db, applied: seq<Version>, alreadyUp: seq<Version>, error: Option<Failure>)

  // ---------- one run ----------

  function Committed(db: Db, m: Migration): Db {
    db.(records := db.records[m.version := m.checksum], effects := db.effects + [m.version])
  }

  /** One migration's transaction: its SQL and its record take effect together or not at all. */
  function Transaction(db: Db, m: Migration, f: Fault): (Db, Option<Failure>) {
    if f == BeginFails then (db, Some(NotBegun(m.version)))
    else if f == SqlFails then (db, Some(NotRun(m.version)))
    else if f == RecordFails || m.version in db.records then (db, Some(NotRecorded(m.version)))
    else if f == CommitFails then (db, Some(NotCommitted(m.version)))
    else if f == CommitLost then (Committed(db, m), Some(NotCommitted(m.version)))
    else (Committed(db, m), None)
  }

  /** The run from migration i on; known is what was recorded when the run began. */
  function RunFrom(db: Db, known: map<Version, string>, list: seq<Migration>, faults: seq<Fault>, i: nat): Outcome
    requires i <= |list|
    decreases |list| - i
  {
    if i == |list| then Outcome(db, [], [], None)
    else
      var m := list[i];
      if m.version in known then
        if known[m.version] != m.checksum
        then Outcome(db, [], [], Some(Changed(m.version, known[m.version], m.checksum)))
        else After([], [m.version], RunFrom(db, known, list, faults, i + 1))
      else
        var (next, failed) := Transaction(db, m, FaultAt(faults, i));
        if failed.Some? then Outcome(next, [], [], failed)
        else After([m.version], [], RunFrom(next, known, list, faults, i + 1))
  }

  function After(applied: seq<Version>, alreadyUp: seq<Version>, rest: Outcome): Outcome {
    rest.(applied := applied + rest.applied, alreadyUp := alreadyUp + rest.alreadyUp)
  }

  /** The versions of list[i..] with no record (there: with one), in order. */
  function Unrecorded(known: map<Version, string>, list: seq<Migration>, i: nat, there: bool): seq<Version>
    requires i <= |list|
    decreases |list| - i
  {
    if i == |list| then []
    else (if (list[i].version in known) == there then [list[i].version] else []) + Unrecorded(known, list, i + 1, there)
  }

  /** The first migration from i on whose file no longer matches its record. */
  function FirstChanged(known: map<Version, string>, list: seq<Migration>, i: nat): (k: nat)
    requires i <= |list|
    ensures i <= k <= |list|
    ensures k < |list| ==> list[k].version in known && known[list[k].version] != list[k].checksum
    decreases |list| - i
  {
    if i == |list| || (list[i].version in known && known[list[i].version] != list[i].checksum) then i
    else FirstChanged(known, list, i + 1)
  }

  class Database {
    var db: Db

    constructor (start: Db)
      ensures db == start
    {
      db := start;
    }

    method Transact(m: Migration, f: Fault) returns (failed: Option<Failure>)
      modifies this
      ensures (db, failed) == Transaction(old(db), m, f)
    {
      if f == BeginFails {
        return Some(NotBegun(m.version));
      }
      if f == SqlFails {
        return Some(NotRun(m.version));
      }
      if f == RecordFails || m.version in db.records {
        return Some(NotRecorded(m.version));
      }
      if f == CommitFails {
        return Some(NotCommitted(m.version));
      }
      db := Committed(db, m);
      return if f == CommitLost then Some(NotCommitted(m.version)) else None;
    }

    /** The loop over the files, against what was recorded when it began. */
    method RunAll(known: map<Version, string>, list: seq<Migration>, faults: seq<Fault>)
      returns (applied: seq<Version>, alreadyUp: seq<Version>, error: Option<Failure>)
      modifies this
      ensures Outcome(db, applied, alreadyUp, error) == RunFrom(old(db), known, list, faults, 0)
    {
      applied, alreadyUp, error := [], [], None;
      ghost var whole := RunFrom(db, known, list, faults, 0);
      assert whole == After([], [], whole);
      var i := 0;
      while i < |list|
        invariant i <= |list| && error.None?
        invariant whole == After(applied, alreadyUp, RunFrom(db, known, list, faults, i))
      {
        var m := list[i];
        if m.version in known {
          if known[m.version] != m.checksum {
            error := Some(Changed(m.version, known[m.version], m.checksum));
            Stop(db, applied, alreadyUp, error);
            return;
          }
          OneUp(applied, alreadyUp, m.version, RunFrom(db, known, list, faults, i + 1));
          alreadyUp := alreadyUp + [m.version];
        } else {
          error := Transact(m, FaultAt(faults, i));
          if error.Some? {
            Stop(db, applied, alreadyUp, error);
            return;
          }
          OneApplied(applied, alreadyUp, m.version, RunFrom(db, known, list, faults, i + 1));
          applied := applied + [m.version];
        }
        i := i + 1;
      }
      Stop(db, applied, alreadyUp, None);
    }

    /** Creates the table if need be, then runs what has no record yet. */
    method Migrate(list: seq<Migration>, start: Start, faults: seq<Fault>)
      returns (applied: seq<Version>, alreadyUp: seq<Version>, error: Option<Failure>)
      requires !db.table ==> db.records == map[]
      modifies this
      ensures start.Started? ==>
        Outcome(db, applied, alreadyUp, error) == RunFrom(old(db).(table := true), old(db).records, list, faults, 0)
      ensures !start.Started? ==>
        error.Some? && applied == [] && alreadyUp == [] && db == old(db).(table := old(db).table || start.ReadFails?)
    {
      match start {
        case WithoutPool => return [], [], Some(NoPool);
        case AcquireFails => return [], [], Some(NoConnection);
        case LockFails => return [], [], Some(NoLock);
        case TableFails => return [], [], Some(NoTable);
        case _ =>
      }
      db := db.(table := true);
      if start.ReadFails? {
        return [], [], Some(NoRead);
      }
      applied, alreadyUp, error := RunAll(db.records, list, faults);
    }

    /** What Migrate would apply: every version without a record, or the first changed file. */
    method PendingMigrations(list: seq<Migration>) returns (r: Result<seq<Version>, Failure>)
      requires !db.table ==> db.records == map[]
      ensures
        var k := FirstChanged(db.records, list, 0);
        r == if k == |list| then Ok(Unrecorded(db.records, list, 0, false))
             else Err(Changed(list[k].version, db.records[list[k].version], list[k].checksum))
    {
      var pending := [];
      var i := 0;
      while i < |list|
        invariant i <= |list|
        invariant pending + Unrecorded(db.records, list, i, false) == Unrecorded(db.records, list, 0, false)
        invariant FirstChanged(db.records, list, 0) == FirstChanged(db.records, list, i)
      {
        var m := list[i];
        if db.table && m.version in db.records {
          if db.records[m.version] != m.checksum {
            return Err(Changed(m.version, db.records[m.version], m.checksum));
          }
        } else {
          pending := pending + [m.version];
        }
        i := i + 1;
      }
      assert pending + [] == pending;
      return Ok(pending);
    }
  }

  lemma OneUp(applied: seq<Version>, alreadyUp: seq<Version>, v: Version, rest: Outcome)
    ensures After(applied, alreadyUp, After([], [v], rest)) == After(applied, alreadyUp + [v], rest)
  {
    assert alreadyUp + ([v] + rest.alreadyUp) == alreadyUp + [v] + rest.alreadyUp;
    assert applied + ([] + rest.applied) == applied + rest.applied;
  }

  lemma OneApplied(applied: seq<Version>, alreadyUp: seq<Version>, v: Version, rest: Outcome)
    ensures After(applied, alreadyUp, After([v], [], rest)) == After(applied + [v], alreadyUp, rest)
  {
    assert applied + ([v] + rest.applied) == applied + [v] + rest.applied;
    assert alreadyUp + ([] + rest.alreadyUp) == alreadyUp + rest.alreadyUp;
  }

  lemma Stop(db: Db, applied: seq<Version>, alreadyUp: seq<Version>, error: Option<Failure>)
    ensures After(applied, alreadyUp, Outcome(db, [], [], error)) == Outcome(db, applied, alreadyUp, error)
  {
    assert applied + [] == applied && alreadyUp + [] == alreadyUp;
  }

  // ---------- what a run does ----------

  /** Records and effects say the same, and no migration has taken effect twice. */
  ghost predicate Exact(db: Db) {
    && (forall v :: v in db.records <==> v in db.effects)
    && (forall i, j :: 0 <= i < j < |db.effects| ==> db.effects[i] != db.effects[j])
  }

  /** The records a run found are still there as it found them. */
  predicate Knows(db: Db, known: map<Version, string>) {
    forall v :: v in known ==> v in db.records && db.records[v] == known[v]
  }

  function Took(db: Db, o: Outcome): int { |o.db.effects| - |db.effects| }

  /** All or nothing: the SQL and the record take effect together, or neither does and the caller is told;
      only where the answer to the commit is lost is the caller told of a failure that was none. */
  lemma AllOrNothing(db: Db, m: Migration, f: Fault)
    ensures
      var (after, failed) := Transaction(db, m, f);
      && (after == db || (after.table == db.table && after.effects == db.effects + [m.version]
                          && after.records == db.records[m.version := m.checksum]))
      && (after != db <==> (f == Fine || f == CommitLost) && m.version !in db.records)
      && (failed.None? <==> f == Fine && m.version !in db.records)
      && (failed == Some(NotBegun(m.version)) <==> f == BeginFails)
      && (failed == Some(NotRun(m.version)) <==> f == SqlFails)
      && (failed == Some(NotRecorded(m.version)) <==>
            f == RecordFails || (f != BeginFails && f != SqlFails && m.version in db.records))
  {
    assert |db.effects + [m.version]| == |db.effects| + 1;
  }

  lemma TransactionIsExact(db: Db, m: Migration, f: Fault)
    requires Exact(db)
    ensures Exact(Transaction(db, m, f).0)
  {
    var after := Transaction(db, m, f).0;
    if after != db {
      assert after.effects[|db.effects|] == m.version;
      assert forall v :: v in after.effects <==> v in db.effects || v == m.version;
    }
  }

  lemma {:induction false} RunIsExact(db: Db, known: map<Version, string>, list: seq<Migration>, faults: seq<Fault>, i: nat)
    requires i <= |list| && Exact(db)
    ensures Exact(RunFrom(db, known, list, faults, i).db)
    decreases |list| - i
  {
    if i < |list| {
      var next := if list[i].version in known then db else Transaction(db, list[i], FaultAt(faults, i)).0;
      assert Exact(next) by {
        TransactionIsExact(db, list[i], FaultAt(faults, i));
      }
      RunIsExact(next, known, list, faults, i + 1);
    }
  }

  lemma {:induction false} RunKeepsRecords(db: Db, known: map<Version, string>, list: seq<Migration>, faults: seq<Fault>,
                                           i: nat, kept: map<Version, string>)
    requires i <= |list| && Knows(db, kept)
    ensures Knows(RunFrom(db, known, list, faults, i).db, kept)
    decreases |list| - i
  {
    if i < |list| {
      var next := if list[i].version in known then db else Transaction(db, list[i], FaultAt(faults, i)).0;
      RunKeepsRecords(next, known, list, faults, i + 1, kept);
    }
  }

  /** What took effect is a prefix of p, and the run reports that prefix, short of at most a last
      migration whose commit it was not told of. */
  predicate IsPrefix(db: Db, o: Outcome, p: seq<Version>) {
    && 0 <= Took(db, o) <= |p| && o.db.effects == db.effects + p[..Took(db, o)]
    && |o.applied| <= |p| && o.applied == p[..|o.applied|]
    && |o.applied| <= Took(db, o) <= |o.applied| + 1
    && (Took(db, o) > |o.applied| ==> o.error.Some? && o.error.value.NotCommitted?)
    && (o.error.None? ==> o.applied == p)
  }

  lemma PrefixGrows(db: Db, next: Db, o: Outcome, p: seq<Version>, v: Version)
    requires next.effects == db.effects + [v] && IsPrefix(next, o, p)
    ensures IsPrefix(db, After([v], [], o), [v] + p)
  {
    var n := Took(next, o);
    assert ([v] + p)[..n + 1] == [v] + p[..n];
    assert ([v] + p)[..|o.applied| + 1] == [v] + p[..|o.applied|];
    assert db.effects + [v] + p[..n] == db.effects + ([v] + p[..n]);
  }

  lemma {:induction false} RunTakesAPrefix(db: Db, known: map<Version, string>, list: seq<Migration>, faults: seq<Fault>, i: nat)
    requires i <= |list|
    ensures IsPrefix(db, RunFrom(db, known, list, faults, i), Unrecorded(known, list, i, false))
    decreases |list| - i
  {
    if i < |list| {
      var m := list[i];
      if m.version in known {
        RunTakesAPrefix(db, known, list, faults, i + 1);
      } else {
        var (next, failed) := Transaction(db, m, FaultAt(faults, i));
        if failed.None? {
          RunTakesAPrefix(next, known, list, faults, i + 1);
          PrefixGrows(db, next, RunFrom(next, known, list, faults, i + 1), Unrecorded(known, list, i + 1, false), m.version);
        }
      }
    }
  }

  /** For every list and every failure: what takes effect is a prefix of what was pending, in order;
      each migration has its record exactly if it took effect, and none takes effect twice. */
  lemma AppliesAPrefix(db: Db, list: seq<Migration>, faults: seq<Fault>)
    requires Exact(db)
    ensures
      var o, pending := RunFrom(db, db.records, list, faults, 0), Unrecorded(db.records, list, 0, false);
      Exact(o.db) && Knows(o.db, db.records) && IsPrefix(db, o, pending)
  {
    RunIsExact(db, db.records, list, faults, 0);
    RunKeepsRecords(db, db.records, list, faults, 0, db.records);
    RunTakesAPrefix(db, db.records, list, faults, 0);
  }

  // ---------- success ----------

  /** Every file is recorded as it is. */
  predicate UpToDate(db: Db, list: seq<Migration>, i: nat) {
    forall j :: i <= j < |list| ==> list[j].version in db.records && db.records[list[j].version] == list[j].checksum
  }

  lemma {:induction false} SuccessRecordsAll(db: Db, known: map<Version, string>, list: seq<Migration>, faults: seq<Fault>, i: nat)
    requires i <= |list| && Knows(db, known)
    requires RunFrom(db, known, list, faults, i).error.None?
    ensures UpToDate(RunFrom(db, known, list, faults, i).db, list, i)
    ensures RunFrom(db, known, list, faults, i).alreadyUp == Unrecorded(known, list, i, true)
    decreases |list| - i
  {
    if i < |list| {
      var m := list[i];
      var next := if m.version in known then db else Transaction(db, m, FaultAt(faults, i)).0;
      SuccessRecordsAll(next, known, list, faults, i + 1);
      RunKeepsRecords(next, known, list, faults, i + 1, next.records);
    }
  }

  lemma {:induction false} NothingToDo(db: Db, list: seq<Migration>, faults: seq<Fault>, i: nat)
    requires i <= |list| && UpToDate(db, list, i)
    ensures RunFrom(db, db.records, list, faults, i) == Outcome(db, [], Unrecorded(db.records, list, i, true), None)
    ensures Unrecorded(db.records, list, i, false) == [] && FirstChanged(db.records, list, i) == |list|
    ensures Unrecorded(db.records, list, i, true) == seq(|list| - i, k requires 0 <= k < |list| - i => list[i + k].version)
    decreases |list| - i
  {
    if i < |list| {
      NothingToDo(db, list, faults, i + 1);
    }
  }

  /** A run that reports no error applied exactly what was pending and found the rest; then nothing
      is pending, and running again applies nothing whatever could fail. */
  lemma SecondRunAppliesNothing(db: Db, list: seq<Migration>, faults: seq<Fault>, again: seq<Fault>)
    requires Exact(db) && RunFrom(db, db.records, list, faults, 0).error.None?
    ensures
      var o := RunFrom(db, db.records, list, faults, 0);
      && o.applied == Unrecorded(db.records, list, 0, false) && o.alreadyUp == Unrecorded(db.records, list, 0, true)
      && Unrecorded(o.db.records, list, 0, false) == [] && FirstChanged(o.db.records, list, 0) == |list|
      && RunFrom(o.db, o.db.records, list, again, 0)
         == Outcome(o.db, [], seq(|list|, k requires 0 <= k < |list| => list[k].version), None)
  {
    AppliesAPrefix(db, list, faults);
    SuccessRecordsAll(db, db.records, list, faults, 0);
    NothingToDo(RunFrom(db, db.records, list, faults, 0).db, list, again, 0);
  }

  // ---------- failure ----------

  predicate Distinct(list: seq<Migration>) {
    forall i, j :: 0 <= i < j < |list| ==> list[i].version != list[j].version
  }

  /** From i on, the records and what the run knows name the same files. */
  predicate Agree(records: map<Version, string>, known: map<Version, string>, list: seq<Migration>, i: nat)
    requires i <= |list|
  {
    forall j :: i <= j < |list| ==> (list[j].version in records <==> list[j].version in known)
  }

  lemma {:induction false} SamePending(records: map<Version, string>, known: map<Version, string>, list: seq<Migration>, i: nat)
    requires i <= |list| && Agree(records, known, list, i)
    ensures Unrecorded(records, list, i, false) == Unrecorded(known, list, i, false)
    decreases |list| - i
  {
    if i < |list| {
      SamePending(records, known, list, i + 1);
    }
  }

  lemma AgreeNext(db: Db, known: map<Version, string>, list: seq<Migration>, i: nat, f: Fault)
    requires i < |list| && Distinct(list) && Agree(db.records, known, list, i)
    ensures Agree(Transaction(db, list[i], f).0.records, known, list, i + 1)
  {
  }

  /** records leaves pending what known did, less its first n. */
  predicate Leaves(records: map<Version, string>, known: map<Version, string>, list: seq<Migration>, i: nat, n: int)
    requires i <= |list|
  {
    var was := Unrecorded(known, list, i, false);
    0 <= n <= |was| && Unrecorded(records, list, i, false) == was[n..]
  }

  lemma LeavesNext(records: map<Version, string>, known: map<Version, string>, list: seq<Migration>, i: nat, n: int)
    requires i < |list| && list[i].version in records && Leaves(records, known, list, i + 1, n)
    ensures Leaves(records, known, list, i, if list[i].version in known then n else n + 1)
  {
    var rest := Unrecorded(known, list, i + 1, false);
    assert ([list[i].version] + rest)[n + 1..] == rest[n..];
  }

  lemma LeavesAll(records: map<Version, string>, known: map<Version, string>, list: seq<Migration>, i: nat)
    requires i <= |list| && Agree(records, known, list, i)
    ensures Leaves(records, known, list, i, 0)
  {
    SamePending(records, known, list, i);
  }

  /** end leaves pending what known did, less what took effect since db. */
  predicate Resumes(db: Db, end: Db, known: map<Version, string>, list: seq<Migration>, i: nat)
    requires i <= |list|
  {
    Leaves(end.records, known, list, i, |end.effects| - |db.effects|)
  }

  datatype Reached = Here | AfterOne | Later

  /** Where a run from i leaves the database: as it is, after its one transaction, or where the rest
      of the run leaves it. */
  lemma RunSteps(db: Db, known: map<Version, string>, list: seq<Migration>, faults: seq<Fault>, i: nat)
    returns (next: Db, stop: Reached, end: Db)
    requires i < |list|
    ensures next == if list[i].version in known then db else Committed(db, list[i])
    ensures end == RunFrom(db, known, list, faults, i).db
    ensures match stop
      case Here => end == db
      case AfterOne => end == next && list[i].version !in known
      case Later => end == RunFrom(next, known, list, faults, i + 1).db
  {
    next := if list[i].version in known then db else Committed(db, list[i]);
    end := RunFrom(db, known, list, faults, i).db;
    stop := Later;
    if list[i].version in known {
      if known[list[i].version] != list[i].checksum {
        stop := Here;
      }
    } else if Transaction(db, list[i], FaultAt(faults, i)).1.Some? {
      stop := if end == db then Here else AfterOne;
    }
  }

  lemma ResumesAfterOne(db: Db, known: map<Version, string>, list: seq<Migration>, i: nat)
    requires i < |list| && Distinct(list) && Agree(db.records, known, list, i) && list[i].version !in known
    ensures Resumes(db, Committed(db, list[i]), known, list, i)
  {
    var next := Committed(db, list[i]);
    AgreeNext(db, known, list, i, Fine);
    LeavesAll(next.records, known, list, i + 1);
    LeavesNext(next.records, known, list, i, 0);
  }

  lemma NextAgrees(db: Db, known: map<Version, string>, list: seq<Migration>, i: nat)
    requires i < |list| && Distinct(list) && Agree(db.records, known, list, i)
    ensures Agree((if list[i].version in known then db else Committed(db, list[i])).records, known, list, i + 1)
    ensures list[i].version in (if list[i].version in known then db else Committed(db, list[i])).records
  {
  }

  lemma StaysRecorded(next: Db, known: map<Version, string>, list: seq<Migration>, faults: seq<Fault>, i: nat)
    requires i < |list| && list[i].version in next.records
    ensures list[i].version in RunFrom(next, known, list, faults, i + 1).db.records
  {
    RunKeepsRecords(next, known, list, faults, i + 1, next.records);
  }

  lemma ResumesEarlier(db: Db, next: Db, end: Db, known: map<Version, string>, list: seq<Migration>, i: nat)
    requires i < |list| && next == (if list[i].version in known then db else Committed(db, list[i]))
    requires Resumes(next, end, known, list, i + 1) && list[i].version in end.records
    ensures Resumes(db, end, known, list, i)
  {
    LeavesNext(end.records, known, list, i, |end.effects| - |next.effects|);
  }

  /** After any failure, what is pending is what was pending less what took effect: a later run goes
      on from there. */
  lemma {:induction false} ResumesWhereItStopped(db: Db, known: map<Version, string>, list: seq<Migration>, faults: seq<Fault>, i: nat)
    requires i <= |list| && Distinct(list) && Agree(db.records, known, list, i)
    ensures Resumes(db, RunFrom(db, known, list, faults, i).db, known, list, i)
    decreases |list| - i
  {
    if i == |list| {
    } else {
      var next, stop, end := RunSteps(db, known, list, faults, i);
      match stop
      case Here => LeavesAll(db.records, known, list, i);
      case AfterOne => ResumesAfterOne(db, known, list, i);
      case Later =>
        NextAgrees(db, known, list, i);
        ResumesWhereItStopped(next, known, list, faults, i + 1);
        StaysRecorded(next, known, list, faults, i);
        ResumesEarlier(db, next, end, known, list, i);
    }
  }

  /** The two disagree about a changed file: PendingMigrations reports nothing but the error, while
      Migrate first applies every pending migration listed before it. */
  lemma {:induction false} ChangedStopsHere(db: Db, known: map<Version, string>, list: seq<Migration>, i: nat)
    requires i <= |list| && Distinct(list) && FirstChanged(known, list, i) < |list|
    requires Agree(db.records, known, list, i)
    ensures
      var k, o := FirstChanged(known, list, i), RunFrom(db, known, list, [], i);
      && o.error == Some(Changed(list[k].version, known[list[k].version], list[k].checksum))
      && o.applied == Unrecorded(known, list[..k], i, false)
    decreases |list| - i
  {
    var k := FirstChanged(known, list, i);
    if i < k {
      var next := if list[i].version in known then db else Committed(db, list[i]);
      ChangedStopsHere(next, known, list, i + 1);
    }
  }

  /** With nothing failing, a run succeeds exactly if no file has changed. */
  lemma {:induction false} SucceedsIff(db: Db, known: map<Version, string>, list: seq<Migration>, i: nat)
    requires i <= |list| && Distinct(list) && Agree(db.records, known, list, i)
    ensures RunFrom(db, known, list, [], i).error.None? <==> FirstChanged(known, list, i) == |list|
    decreases |list| - i
  {
    if i < |list| {
      var next := if list[i].version in known then db else Committed(db, list[i]);
      NextAgrees(db, known, list, i);
      SucceedsIff(next, known, list, i + 1);
    }
  }
}
