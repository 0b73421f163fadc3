/** Several processes migrating one database at once, under a session's advisory lock
    (internal/store/migrate.go:82-150). */
module MigrationRunners {
  import opened Common
  import opened Migrations

  type Runner = nat

  /** Where a runner is in its call. InTx is between BEGIN and the end of one migration's
      transaction; executed and recorded say which of its two statements went through. */
  datatype Phase = Idle | Locked | Looping | InTx(executed: bool, recorded: bool) | Done(error: Option<Failure>)

  datatype Run = Run(phase: Phase, list: seq<Migration>, pos: nat, known: map<Version, string>, applied: seq<Version>)

  /** The session lock belongs to a runner's connection and goes with it. */
  datatype World = World(db: Db, lock: Option<Runner>, runs: map<Runner, Run>)

  datatype Step =
    | Call(r: Runner, list: seq<Migration>)
    | Lock(r: Runner)
    | Read(r: Runner)
    | Skip(r: Runner)
    | Begin(r: Runner)
    | Exec(r: Runner)
    | Insert(r: Runner)
    | Commit(r: Runner)
    | Finish(r: Runner)
    | Fail(r: Runner, error: Failure, committed: bool)

  predicate Within(run: Run) { run.pos < |run.list| }

  predicate Active(run: Run) { run.phase.Locked? || run.phase.Looping? || run.phase.InTx? }

  predicate Enabled(w: World, step: Step) {
    if step.Call? then step.r !in w.runs && Distinct(step.list)
    else
      step.r in w.runs &&
      var run := w.runs[step.r];
      match step
      case Lock(_) => run.phase.Idle? && w.lock.None?
      case Read(_) => run.phase.Locked?
      case Skip(_) =>
        && run.phase.Looping? && Within(run) && run.list[run.pos].version in run.known
        && run.known[run.list[run.pos].version] == run.list[run.pos].checksum
      case Begin(_) => run.phase.Looping? && Within(run) && run.list[run.pos].version !in run.known
      case Exec(_) => run.phase == InTx(false, false)
      case Insert(_) => run.phase == InTx(true, false) && Within(run) && run.list[run.pos].version !in w.db.records
      case Commit(_) => run.phase == InTx(true, true) && Within(run)
      case Finish(_) => run.phase.Looping? && run.pos == |run.list|
      case Fail(_, _, committed) => !run.phase.Done? && (committed ==> run.phase == InTx(true, true) && Within(run))
      case _ => false
  }

  function Set(w: World, r: Runner, run: Run): World { w.(runs := w.runs[r := run]) }

  function Released(w: World, r: Runner): World { if w.lock == Some(r) then w.(lock := None) else w }

  function Apply(w: World, step: Step): World
    requires Enabled(w, step)
  {
    match step
    case Call(r, list) => Set(w, r, Run(Idle, list, 0, map[], []))
    case Lock(r) => Set(w, r, w.runs[r].(phase := Locked)).(lock := Some(r))
    case Read(r) => Set(w, r, w.runs[r].(phase := Looping, known := w.db.records)).(db := w.db.(table := true))
    case Skip(r) => Set(w, r, w.runs[r].(pos := w.runs[r].pos + 1))
    case Begin(r) => Set(w, r, w.runs[r].(phase := InTx(false, false)))
    case Exec(r) => Set(w, r, w.runs[r].(phase := InTx(true, false)))
    case Insert(r) => Set(w, r, w.runs[r].(phase := InTx(true, true)))
    case Commit(r) =>
      var run := w.runs[r];
      var m := run.list[run.pos];
      Set(w, r, run.(phase := Looping, pos := run.pos + 1, applied := run.applied + [m.version]))
      .(db := Committed(w.db, m))
    case Finish(r) => Released(Set(w, r, w.runs[r].(phase := Done(None))), r)
    case Fail(r, error, committed) =>
      var run := w.runs[r];
      var next := Released(Set(w, r, run.(phase := Done(Some(error)))), r);
      if committed then next.(db := Committed(w.db, run.list[run.pos])) else next
  }

  predicate CanRun(w: World, steps: seq<Step>)
    decreases |steps|
  {
    steps == [] || (Enabled(w, steps[0]) && CanRun(Apply(w, steps[0]), steps[1..]))
  }

  function RunAll(w: World, steps: seq<Step>): World
    requires CanRun(w, steps)
    decreases |steps|
  {
    if steps == [] then w else RunAll(Apply(w, steps[0]), steps[1..])
  }

  // ---------- the invariant ----------

  /** Past the lock, a runner holds it; and what it read plus what it applied is all there is. */
  ghost predicate RunOk(w: World, r: Runner)
    requires r in w.runs
  {
    var run := w.runs[r];
    && Distinct(run.list) && run.pos <= |run.list|
    && (Active(run) ==> w.lock == Some(r))
    && (run.phase.InTx? ==> Within(run) && run.list[run.pos].version !in w.db.records)
    && (run.phase.Looping? || run.phase.InTx? || run.phase == Done(None) ==> UpToDate(w.db, run.list[..run.pos], 0))
    && (run.phase.Looping? || run.phase.InTx? ==>
          Knows(w.db, run.known) && forall v :: v in w.db.records <==> v in run.known || v in run.applied)
    && (forall v :: v in run.applied ==> exists i :: 0 <= i < run.pos && run.list[i].version == v)
    && (run.phase == Done(None) ==> run.pos == |run.list|)
    && (run.phase.Idle? || run.phase.Locked? ==> run.pos == 0 && run.applied == [])
  }

  ghost predicate Inv(w: World) { forall r :: r in w.runs ==> RunOk(w, r) }

  /** Whatever step another runner takes, a runner's own claims stay true. */
  lemma OthersKeepRunOk(w: World, step: Step, r: Runner)
    requires Inv(w) && Enabled(w, step) && r in w.runs && step.r != r
    ensures r in Apply(w, step).runs && RunOk(Apply(w, step), r)
  {
    var after := Apply(w, step);
    assert RunOk(w, r);
    if !step.Call? {
      assert RunOk(w, step.r);
    }
    assert after.runs[r] == w.runs[r];
    if Active(w.runs[r]) {
      assert after.db.records == w.db.records;
    } else {
      RecordsStay(w, step, r);
    }
  }

  /** What is recorded stays recorded as it is. */
  lemma RecordsStay(w: World, step: Step, r: Runner)
    requires Inv(w) && Enabled(w, step) && r in w.runs
    ensures Knows(Apply(w, step).db, w.db.records)
    ensures UpToDate(w.db, w.runs[r].list[..Min(w.runs[r].pos, |w.runs[r].list|)], 0) ==>
      UpToDate(Apply(w, step).db, w.runs[r].list[..Min(w.runs[r].pos, |w.runs[r].list|)], 0)
  {
    if !step.Call? {
      assert RunOk(w, step.r);
    }
  }

  lemma OwnStepKeepsRunOk(w: World, step: Step)
    requires Inv(w) && Enabled(w, step)
    ensures RunOk(Apply(w, step), step.r)
  {
    if !step.Call? {
      assert RunOk(w, step.r);
      var run, after := w.runs[step.r], Apply(w, step);
      match step
      case Skip(r) => NextUpToDate(w.db, run.list, run.pos);
      case Commit(r) => CommitKeepsRunOk(w, r);
      case Begin(r) => NotYetRecorded(w, r);
      case _ =>
    }
  }

  /** With distinct versions, a migration a runner did not know of has no record when it begins. */
  lemma NotYetRecorded(w: World, r: Runner)
    requires r in w.runs && RunOk(w, r) && Enabled(w, Begin(r))
    ensures w.runs[r].list[w.runs[r].pos].version !in w.db.records
  {
  }

  lemma NextUpToDate(db: Db, list: seq<Migration>, pos: nat)
    requires pos < |list| && UpToDate(db, list[..pos], 0)
    requires list[pos].version in db.records && db.records[list[pos].version] == list[pos].checksum
    ensures UpToDate(db, list[..pos + 1], 0)
  {
  }

  lemma CommitKeepsRunOk(w: World, r: Runner)
    requires r in w.runs && RunOk(w, r) && Enabled(w, Commit(r))
    ensures RunOk(Apply(w, Commit(r)), r)
  {
    var run, after := w.runs[r], Apply(w, Commit(r));
    assert UpToDate(after.db, run.list[..run.pos], 0);
    NextUpToDate(after.db, run.list, run.pos);
  }

  lemma StepKeepsInv(w: World, step: Step)
    requires Inv(w) && Enabled(w, step)
    ensures Inv(Apply(w, step))
  {
    forall r | r in Apply(w, step).runs ensures RunOk(Apply(w, step), r) {
      if r == step.r {
        OwnStepKeepsRunOk(w, step);
      } else {
        OthersKeepRunOk(w, step, r);
      }
    }
  }

  lemma {:induction false} RunKeepsInv(w: World, steps: seq<Step>)
    requires Inv(w) && Exact(w.db) && CanRun(w, steps)
    ensures Inv(RunAll(w, steps)) && Exact(RunAll(w, steps).db) && Knows(RunAll(w, steps).db, w.db.records)
    decreases |steps|
  {
    if steps != [] {
      StepKeepsInv(w, steps[0]);
      StepIsExact(w, steps[0]);
      RunKeepsInv(Apply(w, steps[0]), steps[1..]);
    }
  }

  lemma StepIsExact(w: World, step: Step)
    requires Inv(w) && Exact(w.db) && Enabled(w, step)
    ensures Exact(Apply(w, step).db) && Knows(Apply(w, step).db, w.db.records)
  {
    if step.Commit? || (step.Fail? && step.committed) {
      assert RunOk(w, step.r);
      TransactionIsExact(w.db, w.runs[step.r].list[w.runs[step.r].pos], Fine);
    }
  }

  /** However many processes start at once and wherever each fails or dies: no migration takes
      effect twice, each has its record, and a runner that reported success finds every one of its
      files recorded, then and ever after. */
  lemma AppliedOnce(db: Db, steps: seq<Step>, more: seq<Step>, r: Runner)
    requires Exact(db)
    requires
      var start := World(db, None, map[]);
      CanRun(start, steps) && CanRun(RunAll(start, steps), more)
    requires r in RunAll(World(db, None, map[]), steps).runs
    requires RunAll(World(db, None, map[]), steps).runs[r].phase == Done(None)
    ensures
      var later := RunAll(RunAll(World(db, None, map[]), steps), more);
      && Exact(later.db) && UpToDate(later.db, RunAll(World(db, None, map[]), steps).runs[r].list, 0)
  {
    var start := World(db, None, map[]);
    var now := RunAll(start, steps);
    RunKeepsInv(start, steps);
    RunKeepsInv(now, more);
    assert RunOk(now, r);
    assert now.runs[r].list[..now.runs[r].pos] == now.runs[r].list;
  }

  /** The lock's part: two runners are never both past it, so the record a runner inserts is never
      refused because another runner got there first. */
  lemma NoRunnerIsBeaten(db: Db, steps: seq<Step>, r: Runner, u: Runner)
    requires Exact(db) && CanRun(World(db, None, map[]), steps)
    requires
      var w := RunAll(World(db, None, map[]), steps);
      r in w.runs && u in w.runs && Active(w.runs[r])
    ensures
      var w := RunAll(World(db, None, map[]), steps);
      && (Active(w.runs[u]) ==> u == r)
      && (w.runs[r].phase == InTx(true, false) ==> Enabled(w, Insert(r)))
  {
    RunKeepsInv(World(db, None, map[]), steps);
    var w := RunAll(World(db, None, map[]), steps);
    assert RunOk(w, r) && RunOk(w, u);
  }

  // ---------- one runner's way through ----------

  /** The steps of a runner that nothing fails for, from migration pos on. */
  function LoopSteps(r: Runner, list: seq<Migration>, known: map<Version, string>, pos: nat): seq<Step>
    requires pos <= |list|
    decreases |list| - pos
  {
    if pos == |list| then [Finish(r)]
    else (if list[pos].version in known then [Skip(r)] else [Begin(r), Exec(r), Insert(r), Commit(r)])
         + LoopSteps(r, list, known, pos + 1)
  }

  function CallSteps(r: Runner, list: seq<Migration>, known: map<Version, string>): seq<Step> {
    [Call(r, list), Lock(r), Read(r)] + LoopSteps(r, list, known, 0)
  }

  lemma RunNext(w: World, step: Step, rest: seq<Step>)
    requires Enabled(w, step) && CanRun(Apply(w, step), rest)
    ensures CanRun(w, [step] + rest) && RunAll(w, [step] + rest) == RunAll(Apply(w, step), rest)
  {
    assert ([step] + rest)[1..] == rest;
  }

  /** A runner in its loop: it holds the lock, and the files still to come are as they were recorded, or
      have no record. */
  predicate Ready(w: World, r: Runner) {
    && r in w.runs && w.lock == Some(r) && w.runs[r].phase == Looping && Distinct(w.runs[r].list) && w.runs[r].pos <= |w.runs[r].list|
    && forall j :: w.runs[r].pos <= j < |w.runs[r].list| ==>
         var m := w.runs[r].list[j];
         if m.version in w.runs[r].known then w.runs[r].known[m.version] == m.checksum else m.version !in w.db.records
  }

  /** What a run that is through has come to. */
  predicate Came(w: World, r: Runner, before: Run, o: Outcome) {
    && r in w.runs && w.lock.None? && w.runs[r].phase == Done(None) && w.db == o.db && o.error.None?
    && w.runs[r].applied == before.applied + o.applied
  }

  /** From here the runner goes through, and does what the rest of a run alone does. */
  predicate Goes(w: World, r: Runner)
    requires Ready(w, r)
  {
    var run := w.runs[r];
    var steps := LoopSteps(r, run.list, run.known, run.pos);
    CanRun(w, steps) && Came(RunAll(w, steps), r, run, RunFrom(w.db, run.known, run.list, [], run.pos))
  }

  /** The world after the migration at hand. */
  function Migrated(w: World, r: Runner): World
    requires r in w.runs && Within(w.runs[r])
  {
    var run := w.runs[r];
    var m := run.list[run.pos];
    Set(w, r, run.(pos := run.pos + 1, applied := run.applied + [m.version])).(db := Committed(w.db, m))
  }

  predicate AtNewMigration(w: World, r: Runner) {
    Ready(w, r) && Within(w.runs[r]) && w.runs[r].list[w.runs[r].pos].version !in w.runs[r].known
  }

  lemma StaysReady(w: World, r: Runner)
    requires AtNewMigration(w, r)
    ensures Ready(Migrated(w, r), r)
  {
  }

  lemma FourSteps(w: World, r: Runner, rest: seq<Step>)
    requires AtNewMigration(w, r) && CanRun(Migrated(w, r), rest)
    ensures CanRun(w, [Begin(r), Exec(r), Insert(r), Commit(r)] + rest)
    ensures RunAll(w, [Begin(r), Exec(r), Insert(r), Commit(r)] + rest) == RunAll(Migrated(w, r), rest)
  {
    var run := w.runs[r];
    var w1, w2, w3 := Set(w, r, run.(phase := InTx(false, false))), Set(w, r, run.(phase := InTx(true, false))), Set(w, r, run.(phase := InTx(true, true)));
    assert Apply(w, Begin(r)) == w1 && Apply(w1, Exec(r)) == w2 && Apply(w2, Insert(r)) == w3;
    assert Apply(w3, Commit(r)) == Migrated(w, r);
    RunNext(w3, Commit(r), rest);
    RunNext(w2, Insert(r), [Commit(r)] + rest);
    RunNext(w1, Exec(r), [Insert(r)] + ([Commit(r)] + rest));
    RunNext(w, Begin(r), [Exec(r)] + ([Insert(r)] + ([Commit(r)] + rest)));
    assert [Begin(r)] + ([Exec(r)] + ([Insert(r)] + ([Commit(r)] + rest))) == [Begin(r), Exec(r), Insert(r), Commit(r)] + rest;
  }

  lemma FinishGoes(w: World, r: Runner)
    requires Ready(w, r) && !Within(w.runs[r])
    ensures Goes(w, r)
  {
    RunNext(w, Finish(r), []);
    assert [Finish(r)] + [] == [Finish(r)];
  }

  lemma SkipGoes(w: World, r: Runner)
    requires Ready(w, r) && Within(w.runs[r]) && w.runs[r].list[w.runs[r].pos].version in w.runs[r].known
    requires Goes(Apply(w, Skip(r)), r)
    ensures Goes(w, r)
  {
    var run := w.runs[r];
    RunNext(w, Skip(r), LoopSteps(r, run.list, run.known, run.pos + 1));
    OneUp([], [], run.list[run.pos].version, RunFrom(w.db, run.known, run.list, [], run.pos + 1));
  }

  lemma MigrationGoes(w: World, r: Runner)
    requires AtNewMigration(w, r) && Ready(Migrated(w, r), r) && Goes(Migrated(w, r), r)
    ensures Goes(w, r)
  {
    var run, next := w.runs[r], Migrated(w, r);
    var m := run.list[run.pos];
    FourSteps(w, r, LoopSteps(r, run.list, run.known, run.pos + 1));
    var o := RunFrom(next.db, run.known, run.list, [], run.pos + 1);
    RunsNext(w.db, run.known, run.list, run.pos);
    Reassociate(run.applied, [m.version], o.applied);
  }

  lemma RunsNext(db: Db, known: map<Version, string>, list: seq<Migration>, pos: nat)
    requires pos < |list| && list[pos].version !in known && list[pos].version !in db.records
    ensures RunFrom(db, known, list, [], pos) == After([list[pos].version], [], RunFrom(Committed(db, list[pos]), known, list, [], pos + 1))
  {
  }

  lemma {:induction false} LoopRuns(w: World, r: Runner)
    requires Ready(w, r)
    ensures Goes(w, r)
    decreases |w.runs[r].list| - w.runs[r].pos
  {
    var run := w.runs[r];
    if !Within(run) {
      FinishGoes(w, r);
    } else if run.list[run.pos].version in run.known {
      LoopRuns(Apply(w, Skip(r)), r);
      SkipGoes(w, r);
    } else {
      StaysReady(w, r);
      LoopRuns(Migrated(w, r), r);
      MigrationGoes(w, r);
    }
  }

  /** A call that finds the lock free and its files as they were recorded can go through, in any world, and
      does to the database what one run of Migrate alone does; the lock is free again. */
  lemma {:induction false} CallGoesThrough(w: World, r: Runner, list: seq<Migration>)
    requires w.lock.None? && r !in w.runs && Distinct(list) && FirstChanged(w.db.records, list, 0) == |list|
    ensures CanRun(w, CallSteps(r, list, w.db.records))
    ensures
      var after := RunAll(w, CallSteps(r, list, w.db.records));
      var o := RunFrom(w.db.(table := true), w.db.records, list, [], 0);
      && r in after.runs && after.lock.None? && after.runs[r].phase == Done(None) && o.error.None?
      && after.db == o.db && after.runs[r].applied == o.applied
  {
    var known := w.db.records;
    var w1 := Apply(w, Call(r, list));
    var w2 := Apply(w1, Lock(r));
    var w3 := Apply(w2, Read(r));
    Unchanged(known, list, 0);
    LoopRuns(w3, r);
    var rest := LoopSteps(r, list, known, 0);
    RunNext(w2, Read(r), rest);
    RunNext(w1, Lock(r), [Read(r)] + rest);
    RunNext(w, Call(r, list), [Lock(r)] + ([Read(r)] + rest));
    assert [Call(r, list)] + ([Lock(r)] + ([Read(r)] + rest)) == CallSteps(r, list, known);
    assert [] + RunFrom(w3.db, known, list, [], 0).applied == RunFrom(w3.db, known, list, [], 0).applied;
  }

  lemma {:induction false} Unchanged(known: map<Version, string>, list: seq<Migration>, i: nat)
    requires i <= |list| && FirstChanged(known, list, i) == |list|
    ensures forall j :: i <= j < |list| && list[j].version in known ==> known[list[j].version] == list[j].checksum
    decreases |list| - i
  {
    if i < |list| {
      Unchanged(known, list, i + 1);
    }
  }

  /** A runner that fails or dies leaves the lock to the others, and in the database what it had committed. */
  lemma FailureFreesTheLock(w: World, r: Runner, error: Failure, committed: bool)
    requires Enabled(w, Fail(r, error, committed))
    ensures
      var after := Apply(w, Fail(r, error, committed));
      && after.lock == (if w.lock == Some(r) then None else w.lock) && after.runs[r].phase == Done(Some(error))
      && after.db == if committed then Committed(w.db, w.runs[r].list[w.runs[r].pos]) else w.db
  {
  }
}
