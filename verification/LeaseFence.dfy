/** What the row locks, the fence and the lease guarantee over whole runs
    (internal/store/execution.go:161-286, internal/store/task.go:207-232). */
module LeaseFence {
  import opened Common
  import opened TaskLifecycle
  import opened TaskStore

  // ---------- the fence ----------

  predicate Ends(step: Step, tx: TxId) { step == Commit(tx) || step == Abort(tx) }

  /** A transaction's own statements publish nothing and drop no fence. */
  lemma OwnStatement(db: Db, step: Step, tx: TxId)
    requires Enabled(db, step) && tx in db.txs && TxOf(step) == Some(tx) && !Ends(step, tx)
    ensures
      var after := Apply(db, step);
      && tx in after.txs && db.txs[tx].fences <= after.txs[tx].fences
      && after.attempts == db.attempts && after.tasks == db.tasks
  {
    match step
    case HoldAttempt(_, t, a, o) =>
      assert Held(db, tx, t, a, o) ==> db.txs[tx].fences <= db.txs[tx].fences + {Fence(t, a, o)};
    case _ =>
  }

  /** The fence over one step that does not end its transaction. */
  lemma FenceStep(db: Db, step: Step, tx: TxId, f: Fence)
    requires Inv(db) && Enabled(db, step) && !Ends(step, tx)
    requires tx in db.txs && f in db.txs[tx].fences
    ensures
      var after := Apply(db, step);
      && tx in after.txs && f in after.txs[tx].fences
      && SameAttempt(db, after, f.attempt) && SameTask(db, after, f.task)
  {
    assert TxOk(db, tx) && FenceOk(db, tx, f);
    if TxOf(step) != Some(tx) {
      OthersDoNotDisturb(db, step, tx);
      assert LockedBy(db.attemptLocks, f.attempt, tx) && LockedBy(db.taskLocks, f.task, tx);
    } else {
      OwnStatement(db, step, tx);
    }
  }

  /** From the moment HoldLease passes until its transaction ends, however many other transactions
      create, finish, renew, transition, commit or abort in between: the attempt stays in progress
      under its owner and both committed rows stay as they were. */
  lemma {:induction false} FenceHolds(db: Db, steps: seq<Step>, tx: TxId, f: Fence)
    requires Inv(db) && CanRun(db, steps) && tx in db.txs && f in db.txs[tx].fences
    requires forall i :: 0 <= i < |steps| ==> !Ends(steps[i], tx)
    ensures
      var after := Run(db, steps);
      && tx in after.txs && f in after.txs[tx].fences
      && SameAttempt(db, after, f.attempt) && SameTask(db, after, f.task)
      && (f.attempt in after.attempts ==>
            var row := after.attempts[f.attempt];
            row.task == f.task && row.owner == f.owner && row.status == InProgress)
    decreases |steps|
  {
    if steps == [] {
      assert TxOk(db, tx) && FenceOk(db, tx, f);
    } else {
      assert !Ends(steps[0], tx);
      FenceStep(db, steps[0], tx, f);
      StepKeepsInv(db, steps[0]);
      FenceHolds(Apply(db, steps[0]), steps[1..], tx, f);
    }
  }

  /** Two open transactions never both hold the fence of one task, or of one attempt. */
  lemma FenceIsExclusive(steps: seq<Step>, tx: TxId, u: TxId, f: Fence, g: Fence)
    requires CanRun(INIT, steps)
    requires
      var db := Run(INIT, steps);
      tx in db.txs && u in db.txs && f in db.txs[tx].fences && g in db.txs[u].fences
    requires f.task == g.task || f.attempt == g.attempt
    ensures tx == u
  {
    RunKeepsInv(INIT, steps);
    var db := Run(INIT, steps);
    assert TxOk(db, tx) && TxOk(db, u) && FenceOk(db, tx, f) && FenceOk(db, u, g);
  }

  // ---------- the end of a transaction ----------

  function Committed(db: Db, a: AttemptId): Option<Attempt> { if a in db.attempts then Some(db.attempts[a]) else None }

  /** A commit makes everyone see what its transaction saw, and adds its moves to the histories; an
      abort leaves what was committed. Either way its locks are free and the others' are not. */
  lemma EndPublishes(db: Db, tx: TxId, a: AttemptId, t: TaskId)
    requires tx in db.txs
    ensures
      var after := Apply(db, Commit(tx));
      && Committed(after, a) == AttemptSeen(db, tx, a)
      && (t in db.tasks ==> t in after.tasks && Some(after.tasks[t]) == StatusSeen(db, tx, t))
      && (t in db.history ==> t in after.history && after.history[t] == db.history[t] + Moves(db.txs[tx], t))
    ensures
      var after := Apply(db, Abort(tx));
      after.attempts == db.attempts && after.tasks == db.tasks && after.history == db.history
    ensures forall end | end in {Commit(tx), Abort(tx)} ::
      var after := Apply(db, end);
      && tx !in after.txs
      && (forall u :: LockedBy(after.attemptLocks, a, u) <==> u != tx && LockedBy(db.attemptLocks, a, u))
      && (forall u :: LockedBy(after.taskLocks, t, u) <==> u != tx && LockedBy(db.taskLocks, t, u))
  {
  }

  // ---------- a finished attempt ----------

  /** A transaction has a version of a committed row only if that row is in progress. */
  lemma OnlyOpenRowsAreWritten(db: Db, tx: TxId, a: AttemptId)
    requires Inv(db) && tx in db.txs && a in db.attempts && a in db.txs[tx].attempts
    ensures db.attempts[a].status == InProgress
  {
    assert TxOk(db, tx) && RowOk(db, tx, a);
  }

  lemma EndedStep(db: Db, step: Step, a: AttemptId)
    requires Inv(db) && Enabled(db, step) && a in db.attempts && db.attempts[a].status != InProgress
    ensures SameAttempt(db, Apply(db, step), a)
  {
    if step.Commit? && a in db.txs[step.tx].attempts {
      OnlyOpenRowsAreWritten(db, step.tx, a);
    }
  }

  /** Once an ending has committed, the attempt's record never changes again, and no transaction
      passes its fence, renews its lease or finishes it. */
  lemma {:induction false} EndedForever(db: Db, steps: seq<Step>, a: AttemptId)
    requires Inv(db) && CanRun(db, steps) && a in db.attempts && db.attempts[a].status != InProgress
    ensures
      var after := Run(db, steps);
      && SameAttempt(db, after, a)
      && (forall tx, t, o :: tx in after.txs ==> !Held(after, tx, t, a, o))
      && (forall tx, o :: tx in after.txs ==> !Renewable(after, tx, a, o))
      && (forall tx :: tx in after.txs ==> !Open(after, tx, a))
    decreases |steps|
  {
    if steps == [] {
      forall tx | tx in db.txs ensures AttemptSeen(db, tx, a) == Some(db.attempts[a]) {
        assert TxOk(db, tx);
        assert a in db.txs[tx].attempts ==> RowOk(db, tx, a);
      }
    } else {
      EndedStep(db, steps[0], a);
      StepKeepsInv(db, steps[0]);
      EndedForever(Apply(db, steps[0]), steps[1..], a);
    }
  }

  /** An attempt never moves to another task, number or owner. */
  lemma {:induction false} IdentityForever(db: Db, steps: seq<Step>, a: AttemptId)
    requires Inv(db) && CanRun(db, steps) && a in db.attempts
    ensures a in Run(db, steps).attempts && SameKey(db.attempts[a], Run(db, steps).attempts[a])
    decreases |steps|
  {
    if steps != [] {
      var step := steps[0];
      if step.Commit? && a in db.txs[step.tx].attempts {
        assert TxOk(db, step.tx) && RowOk(db, step.tx, a);
      }
      StepKeepsInv(db, step);
      IdentityForever(Apply(db, step), steps[1..], a);
    }
  }

  // ---------- the lifecycle ----------

  lemma {:induction false} HistoryGrows(db: Db, steps: seq<Step>, t: TaskId)
    requires Inv(db) && CanRun(db, steps) && t in db.tasks
    ensures t in db.history && t in Run(db, steps).tasks && t in Run(db, steps).history
    ensures db.history[t] <= Run(db, steps).history[t]
    decreases |steps|
  {
    assert HistoryOk(db, t);
    if steps != [] {
      StepKeepsTasks(db, steps[0], t);
      StepKeepsHistory(db, steps[0], t);
      StepKeepsInv(db, steps[0]);
      HistoryGrows(Apply(db, steps[0]), steps[1..], t);
    }
  }

  lemma StepKeepsTasks(db: Db, step: Step, t: TaskId)
    requires Enabled(db, step) && t in db.tasks
    ensures t in Apply(db, step).tasks
  {
  }

  /** Every status a task ever had, in order, is one walk along the lifecycle graph from PENDING to its
      present status; so success is only ever reached through READY, RUNNING and VERIFYING. */
  lemma OneWalk(steps: seq<Step>, t: TaskId)
    requires CanRun(INIT, steps) && t in Run(INIT, steps).tasks
    ensures
      var db := Run(INIT, steps);
      && t in db.history && Path(db.history[t])
      && db.history[t][0] == Pending && db.history[t][|db.history[t]| - 1] == db.tasks[t]
      && (db.tasks[t] == Succeeded ==>
            && |db.history[t]| > 4
            && db.history[t][|db.history[t]| - 4..] == [Ready, Running, Verifying, Succeeded])
  {
    RunKeepsInv(INIT, steps);
    var db := Run(INIT, steps);
    assert HistoryOk(db, t);
    var n := |db.history[t]|;
    PathFacts(db.history[t], n - 1);
    if db.tasks[t] == Succeeded {
      PathFacts(db.history[t], n - 2);
      PathFacts(db.history[t], n - 3);
      assert db.history[t][n - 4..] == db.history[t][n - 4..n - 1] + [db.history[t][n - 1]];
    }
  }

  /** A terminal status is never left. */
  lemma TerminalForever(db: Db, steps: seq<Step>, t: TaskId)
    requires Inv(db) && CanRun(db, steps) && t in db.tasks && Terminal(db.tasks[t])
    ensures t in Run(db, steps).tasks && Run(db, steps).tasks[t] == db.tasks[t]
  {
    HistoryGrows(db, steps, t);
    RunKeepsInv(db, steps);
    var after := Run(db, steps);
    assert HistoryOk(db, t) && HistoryOk(after, t);
    var i := |db.history[t]| - 1;
    assert after.history[t][i] == db.history[t][i];
    PathFacts(after.history[t], i);
  }

  /** A caller whose expected status is stale, or whose edge the graph lacks, changes nothing. */
  lemma StaleChangesNothing(db: Db, tx: TxId, t: TaskId, from: Status, to: Status)
    requires Enabled(db, TransitionTask(tx, t, from, to))
    ensures Apply(db, TransitionTask(tx, t, from, to)) == db
       <==> !CanTransitionTo(from, to) || StatusSeen(db, tx, t) != Some(from)
  {
    if CanTransitionTo(from, to) && StatusSeen(db, tx, t) == Some(from) {
      var x := db.txs[tx];
      assert |Moves(Apply(db, TransitionTask(tx, t, from, to)).txs[tx], t)| == |Moves(x, t)| + 1;
    }
  }

  // ---------- numbers ----------

  /** row is a version of attempt a, committed or not. */
  ghost predicate Version(db: Db, a: AttemptId, row: Attempt) {
    || (a in db.attempts && db.attempts[a] == row)
    || exists tx :: tx in db.txs && a in db.txs[tx].attempts && db.txs[tx].attempts[a] == row
  }

  predicate SameNumber(r: Attempt, s: Attempt) { r.task == s.task && r.number == s.number }

  /** Whatever version one looks at, an id and a number within a task name each other. */
  ghost predicate KeysOk(db: Db) {
    forall a, b, r, s :: Version(db, a, r) && Version(db, b, s) ==> (a == b <==> SameNumber(r, s))
  }

  /** No new pair of id and number. */
  ghost predicate NoNewKeys(db: Db, after: Db) {
    forall a, r :: Version(after, a, r) ==> exists s :: Version(db, a, s) && SameNumber(r, s)
  }

  lemma NoNewKeysKeeps(db: Db, after: Db)
    requires KeysOk(db) && NoNewKeys(db, after)
    ensures KeysOk(after)
  {
    forall a, b, r, s | Version(after, a, r) && Version(after, b, s) ensures a == b <==> SameNumber(r, s) {
      var r0 :| Version(db, a, r0) && SameNumber(r, r0);
      var s0 :| Version(db, b, s0) && SameNumber(s, s0);
    }
  }

  lemma WriteVersions(db: Db, tx: TxId, x: Tx, a: AttemptId, b: AttemptId, r: Attempt)
    requires tx in db.txs && a in x.attempts && x.attempts == db.txs[tx].attempts[a := x.attempts[a]]
    requires Version(WithAttempt(db, tx, x, a), b, r)
    ensures Version(db, b, r) || (b == a && r == x.attempts[a])
  {
    var after := WithAttempt(db, tx, x, a);
    if !(b in after.attempts && after.attempts[b] == r) {
      var u :| u in after.txs && b in after.txs[u].attempts && after.txs[u].attempts[b] == r;
      if u == tx && b != a {
        assert db.txs[tx].attempts[b] == r;
      }
    }
  }

  lemma ChangeKeepsKeys(db: Db, tx: TxId, x: Tx, a: AttemptId)
    requires KeysOk(db) && tx in db.txs && AttemptSeen(db, tx, a).Some?
    requires a in x.attempts && x.attempts == db.txs[tx].attempts[a := x.attempts[a]]
    requires SameNumber(AttemptSeen(db, tx, a).value, x.attempts[a])
    ensures KeysOk(WithAttempt(db, tx, x, a))
  {
    var after := WithAttempt(db, tx, x, a);
    assert Version(db, a, AttemptSeen(db, tx, a).value);
    forall b, r | Version(after, b, r) ensures exists s :: Version(db, b, s) && SameNumber(r, s) {
      WriteVersions(db, tx, x, a, b, r);
    }
    NoNewKeysKeeps(db, after);
  }

  lemma CreateKeepsKeys(db: Db, tx: TxId, a: AttemptId, row: Attempt)
    requires KeysOk(db) && Enabled(db, CreateAttempt(tx, a, row))
    requires !Clashes(db.attempts, a, row) && !Clashes(db.txs[tx].attempts, a, row)
    ensures KeysOk(WithAttempt(db, tx, Written(db.txs[tx], a, row), a))
  {
    var x := Written(db.txs[tx], a, row);
    var after := WithAttempt(db, tx, x, a);
    forall b, r | Version(db, b, r) ensures b != a && !SameNumber(r, row) {
      if b in db.attempts && db.attempts[b] == r {
      } else {
        var u :| u in db.txs && b in db.txs[u].attempts && db.txs[u].attempts[b] == r;
        assert !Clashes(db.txs[u].attempts, a, row);
      }
    }
    forall b, c, r, s | Version(after, b, r) && Version(after, c, s) ensures b == c <==> SameNumber(r, s) {
      WriteVersions(db, tx, x, a, b, r);
      WriteVersions(db, tx, x, a, c, s);
    }
  }

  lemma EndVersions(db: Db, step: Step, b: AttemptId, r: Attempt)
    requires (step.Commit? || step.Abort?) && Enabled(db, step) && Version(Apply(db, step), b, r)
    ensures Version(db, b, r)
  {
    var after := Apply(db, step);
    if b in after.attempts && after.attempts[b] == r {
      if step.Commit? && b in db.txs[step.tx].attempts {
        assert db.txs[step.tx].attempts[b] == r;
      }
    } else {
      var u :| u in after.txs && b in after.txs[u].attempts && after.txs[u].attempts[b] == r;
      assert u in db.txs && db.txs[u] == after.txs[u];
    }
  }

  lemma EndKeepsKeys(db: Db, step: Step)
    requires KeysOk(db) && (step.Commit? || step.Abort?) && Enabled(db, step)
    ensures KeysOk(Apply(db, step))
  {
    forall b, c, r, s | Version(Apply(db, step), b, r) && Version(Apply(db, step), c, s)
      ensures b == c <==> SameNumber(r, s)
    {
      EndVersions(db, step, b, r);
      EndVersions(db, step, c, s);
    }
  }

  predicate OwnVersionsFrom(db: Db, after: Db) {
    forall tx :: tx in after.txs && after.txs[tx].attempts != map[] ==>
      tx in db.txs && db.txs[tx].attempts == after.txs[tx].attempts
  }

  lemma WritesNoAttempt(db: Db, step: Step)
    requires Enabled(db, step) && !step.CreateAttempt? && !step.FinishAttempt? && !step.RenewLease?
    requires !step.Commit? && !step.Abort?
    ensures Apply(db, step).attempts == db.attempts && OwnVersionsFrom(db, Apply(db, step))
  {
  }

  /** Steps that write no attempt. */
  lemma OtherKeepsKeys(db: Db, after: Db)
    requires KeysOk(db) && after.attempts == db.attempts
    requires OwnVersionsFrom(db, after)
    ensures KeysOk(after)
  {
    forall a, r | Version(after, a, r) ensures Version(db, a, r) {
      if !(a in after.attempts && after.attempts[a] == r) {
        var u :| u in after.txs && a in after.txs[u].attempts && after.txs[u].attempts[a] == r;
        assert after.txs[u].attempts != map[];
      }
    }
  }

  lemma StepKeepsKeys(db: Db, step: Step)
    requires KeysOk(db) && Enabled(db, step)
    ensures KeysOk(Apply(db, step))
  {
    match step
    case CreateAttempt(tx, a, row) =>
      if !(Clashes(db.attempts, a, row) || Clashes(db.txs[tx].attempts, a, row) || row.task !in db.tasks) {
        CreateKeepsKeys(db, tx, a, row);
      }
    case FinishAttempt(tx, a, st) =>
      if Open(db, tx, a) {
        ChangeKeepsKeys(db, tx, Written(db.txs[tx], a, AttemptSeen(db, tx, a).value.(status := st)), a);
      }
    case RenewLease(tx, a, o, ttl) =>
      if Renewable(db, tx, a, o) {
        ChangeKeepsKeys(db, tx, Renewed(db.txs[tx], a, AttemptSeen(db, tx, a).value, ttl), a);
      }
    case Commit(_) => EndKeepsKeys(db, step);
    case Abort(_) => EndKeepsKeys(db, step);
    case _ =>
      WritesNoAttempt(db, step);
      OtherKeepsKeys(db, Apply(db, step));
  }

  lemma {:induction false} RunKeepsKeys(db: Db, steps: seq<Step>)
    requires KeysOk(db) && CanRun(db, steps)
    ensures KeysOk(Run(db, steps))
    decreases |steps|
  {
    if steps != [] {
      StepKeepsKeys(db, steps[0]);
      RunKeepsKeys(Apply(db, steps[0]), steps[1..]);
    }
  }

  /** However creations race, no two attempts of a task ever carry the same number. */
  lemma NumbersUnique(steps: seq<Step>, a: AttemptId, b: AttemptId)
    requires CanRun(INIT, steps) && a in Run(INIT, steps).attempts && b in Run(INIT, steps).attempts
    requires SameNumber(Run(INIT, steps).attempts[a], Run(INIT, steps).attempts[b])
    ensures a == b
  {
    RunKeepsKeys(INIT, steps);
    var db := Run(INIT, steps);
    assert Version(db, a, db.attempts[a]) && Version(db, b, db.attempts[b]);
  }

  // ---------- the lease ----------

  predicate Latest(rows: map<AttemptId, Attempt>, t: TaskId, a: AttemptId) {
    a in rows && rows[a].task == t && forall b :: b in rows && rows[b].task == t ==> rows[b].number <= rows[a].number
  }

  predicate Lapsed(row: Attempt, now: int) { row.expires.None? || row.expires.value < now }

  /** StuckLeases lists the task: it is active, and its latest attempt's lease is absent or past. */
  ghost predicate Stuck(db: Db, t: TaskId) {
    t in db.tasks && Active(db.tasks[t]) && exists a :: Latest(db.attempts, t, a) && Lapsed(db.attempts[a], db.now)
  }

  /** Every lease of the attempt, committed or about to be, runs for ttl from the start of the
      renewal that wrote it. */
  predicate Tracks(db: Db, a: AttemptId, ttl: int) {
    && (a in db.grants ==> a in db.attempts && db.attempts[a].expires == Some(db.grants[a] + ttl))
    && forall tx :: tx in db.txs && a in db.txs[tx].grants ==>
         a in db.txs[tx].attempts && db.txs[tx].attempts[a].expires == Some(db.txs[tx].grants[a] + ttl)
  }

  predicate RenewsFor(step: Step, a: AttemptId, ttl: int) { step.RenewLease? && step.attempt == a ==> step.ttl == ttl }

  lemma CommitKeepsTracks(db: Db, tx: TxId, a: AttemptId, ttl: int)
    requires tx in db.txs && Tracks(db, a, ttl)
    requires a in db.txs[tx].attempts ==> RowOk(db, tx, a)
    requires a in db.txs[tx].grants ==> a in db.txs[tx].attempts
    ensures Tracks(Apply(db, Commit(tx)), a, ttl)
  {
  }

  lemma WriteKeepsTracks(db: Db, tx: TxId, x: Tx, b: AttemptId, a: AttemptId, ttl: int)
    requires tx in db.txs && Tracks(db, a, ttl)
    requires a in x.grants ==> a in x.attempts && x.attempts[a].expires == Some(x.grants[a] + ttl)
    ensures Tracks(WithAttempt(db, tx, x, b), a, ttl)
  {
  }

  lemma StepKeepsTracks(db: Db, step: Step, a: AttemptId, ttl: int)
    requires Inv(db) && Enabled(db, step) && Tracks(db, a, ttl) && RenewsFor(step, a, ttl)
    ensures Tracks(Apply(db, step), a, ttl)
  {
    if step.Commit? {
      assert TxOk(db, step.tx);
      CommitKeepsTracks(db, step.tx, a, ttl);
    } else {
      StatementKeepsTracks(db, step, a, ttl);
    }
  }

  lemma StatementKeepsTracks(db: Db, step: Step, a: AttemptId, ttl: int)
    requires Enabled(db, step) && !step.Commit? && Tracks(db, a, ttl) && RenewsFor(step, a, ttl)
    ensures Tracks(Apply(db, step), a, ttl)
  {
    match step
    case FinishAttempt(tx, b, st) =>
      if Open(db, tx, b) {
        WriteKeepsTracks(db, tx, Written(db.txs[tx], b, AttemptSeen(db, tx, b).value.(status := st)), b, a, ttl);
      }
    case RenewLease(tx, b, o, d) =>
      if Renewable(db, tx, b, o) {
        WriteKeepsTracks(db, tx, Renewed(db.txs[tx], b, AttemptSeen(db, tx, b).value, d), b, a, ttl);
      }
    case CreateAttempt(tx, b, row) =>
      if !(Clashes(db.attempts, b, row) || Clashes(db.txs[tx].attempts, b, row) || row.task !in db.tasks) {
        WriteKeepsTracks(db, tx, Written(db.txs[tx], b, row), b, a, ttl);
      }
    case _ =>
  }

  lemma {:induction false} RunKeepsTracks(db: Db, steps: seq<Step>, a: AttemptId, ttl: int)
    requires Inv(db) && CanRun(db, steps) && Tracks(db, a, ttl)
    requires forall i :: 0 <= i < |steps| ==> RenewsFor(steps[i], a, ttl)
    ensures Inv(Run(db, steps)) && Tracks(Run(db, steps), a, ttl)
    decreases |steps|
  {
    if steps != [] {
      assert RenewsFor(steps[0], a, ttl);
      StepKeepsInv(db, steps[0]);
      StepKeepsTracks(db, steps[0], a, ttl);
      RunKeepsTracks(Apply(db, steps[0]), steps[1..], a, ttl);
    }
  }

  /** Renewing in time is exactly what keeps a task off the list. At any time of any run in which an
      attempt is renewed for ttl at a time: once a renewal has been committed, its task, while it is
      the latest attempt, is listed just when it is active and more than ttl has passed since the
      latest committed renewal began. */
  lemma KeptAlive(steps: seq<Step>, t: TaskId, a: AttemptId, ttl: int)
    requires CanRun(INIT, steps) && forall i :: 0 <= i < |steps| ==> RenewsFor(steps[i], a, ttl)
    requires a in Run(INIT, steps).grants
    requires t in Run(INIT, steps).tasks && Latest(Run(INIT, steps).attempts, t, a)
    ensures Stuck(Run(INIT, steps), t)
       <==> Run(INIT, steps).tasks[t] in {Running, Verifying} && Run(INIT, steps).now - Run(INIT, steps).grants[a] > ttl
  {
    RunKeepsTracks(INIT, steps, a, ttl);
    RunKeepsKeys(INIT, steps);
    var after := Run(INIT, steps);
    assert Version(after, a, after.attempts[a]);
    forall b | Latest(after.attempts, t, b) ensures b == a {
      assert Version(after, b, after.attempts[b]);
    }
  }

  /** No one but the owner moves a lease: without a renewal by the attempt's owner, pending or in
      the run, the expiry never changes. */
  lemma {:induction false} OnlyOwnerRenews(db: Db, steps: seq<Step>, a: AttemptId)
    requires Inv(db) && CanRun(db, steps) && a in db.attempts
    requires Ungranted(db, a)
    requires forall i :: 0 <= i < |steps| && steps[i].RenewLease? && steps[i].attempt == a ==>
      steps[i].owner != db.attempts[a].owner
    ensures a in Run(db, steps).attempts && Run(db, steps).attempts[a].expires == db.attempts[a].expires
    decreases |steps|
  {
    if steps != [] {
      var step, after := steps[0], Apply(db, steps[0]);
      ForeignRenewalGrantsNothing(db, step, a);
      StepKeepsInv(db, step);
      OnlyOwnerRenews(after, steps[1..], a);
    }
  }

  predicate Ungranted(db: Db, a: AttemptId) { forall tx :: tx in db.txs ==> a !in db.txs[tx].grants }

  lemma ForeignRenewalGrantsNothing(db: Db, step: Step, a: AttemptId)
    requires Inv(db) && Enabled(db, step) && a in db.attempts && Ungranted(db, a)
    requires step.RenewLease? && step.attempt == a ==> step.owner != db.attempts[a].owner
    ensures a in Apply(db, step).attempts && Apply(db, step).attempts[a].expires == db.attempts[a].expires
    ensures Apply(db, step).attempts[a].owner == db.attempts[a].owner && Ungranted(Apply(db, step), a)
  {
    if TxOf(step).Some? && TxOf(step).value in db.txs {
      var tx := TxOf(step).value;
      assert TxOk(db, tx);
      assert a in db.txs[tx].attempts ==> RowOk(db, tx, a);
      StepByTx(db, step, tx, a);
    }
  }

  lemma StepByTx(db: Db, step: Step, tx: TxId, a: AttemptId)
    requires Enabled(db, step) && TxOf(step) == Some(tx) && tx in db.txs && a in db.attempts && Ungranted(db, a)
    requires a in db.txs[tx].attempts ==> RowOk(db, tx, a)
    requires step.RenewLease? && step.attempt == a ==> step.owner != db.attempts[a].owner
    ensures a in Apply(db, step).attempts && Apply(db, step).attempts[a].expires == db.attempts[a].expires
    ensures Apply(db, step).attempts[a].owner == db.attempts[a].owner && Ungranted(Apply(db, step), a)
  {
  }
}
