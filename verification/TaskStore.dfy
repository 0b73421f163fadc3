/** Task and attempt rows under concurrent transactions: the status compare-and-set, the lease
    and its fence (internal/store/execution.go, internal/store/task.go).

    A statement that changes a row locks it until its transaction ends and reads the row as last
    committed, or as this transaction left it; a statement that would wait is a step that is not
    enabled yet, so that it runs, and judges its WHERE clause, only once the lock is free. */
module TaskStore {
  import opened Common
  import opened TaskLifecycle

  type TaskId = nat
  type AttemptId = nat
  type TxId = nat
  type Owner = nat

  datatype AttemptStatus = InProgress | Done | Broken | Stopped

  datatype Attempt = Attempt(task: TaskId, number: nat, status: AttemptStatus, owner: Owner, expires: Option<int>) {
    predicate HeldBy(t: TaskId, o: Owner) { task == t && owner == o && status == InProgress }
  }

  /** What a transaction knows it passed: HoldLease on this attempt of this task. */
  datatype Fence = Fence(task: TaskId, attempt: AttemptId, owner: Owner)

  /** An open transaction: when it began, and the row versions only it can see. moves lists, per
      task, the statuses it moved through. */
  datatype Tx = Tx(start: int, attempts: map<AttemptId, Attempt>, moves: map<TaskId, seq<Status>>,
                   grants: map<AttemptId, int>, fences: set<Fence>)

  /** Committed rows, open transactions and row locks. history and grants are bookkeeping: every
      status a task has had, and when the latest committed renewal of a lease began. */
  datatype Db = Db(
    now: int,
    tasks: map<TaskId, Status>,
    attempts: map<AttemptId, Attempt>,
    txs: map<TxId, Tx>,
    taskLocks: map<TaskId, TxId>,
    attemptLocks: map<AttemptId, TxId>,
    history: map<TaskId, seq<Status>>,
    grants: map<AttemptId, int>)

  /** A task is created as task.New makes it, PENDING (internal/task/task.go:341). */
  datatype Step =
    | Tick(d: nat)
    | AddTask(task: TaskId)
    | Begin(tx: TxId)
    | LockTask(tx: TxId, task: TaskId)
    | HoldAttempt(tx: TxId, task: TaskId, attempt: AttemptId, owner: Owner)
    | CreateAttempt(tx: TxId, attempt: AttemptId, row: Attempt)
    | FinishAttempt(tx: TxId, attempt: AttemptId, outcome: AttemptStatus)
    | RenewLease(tx: TxId, attempt: AttemptId, owner: Owner, ttl: int)
    | TransitionTask(tx: TxId, task: TaskId, from: Status, to: Status)
    | Commit(tx: TxId)
    | Abort(tx: TxId)

  // ---------- what a transaction sees ----------

  function StatusSeen(db: Db, tx: TxId, t: TaskId): Option<Status>
    requires tx in db.txs
  {
    if t in db.txs[tx].moves && db.txs[tx].moves[t] != [] then Some(db.txs[tx].moves[t][|db.txs[tx].moves[t]| - 1])
    else if t in db.tasks then Some(db.tasks[t])
    else None
  }

  function AttemptSeen(db: Db, tx: TxId, a: AttemptId): Option<Attempt>
    requires tx in db.txs
  {
    if a in db.txs[tx].attempts then Some(db.txs[tx].attempts[a])
    else if a in db.attempts then Some(db.attempts[a])
    else None
  }

  predicate MayLock<K>(locks: map<K, TxId>, k: K, tx: TxId) { k !in locks || locks[k] == tx }

  predicate Held(db: Db, tx: TxId, t: TaskId, a: AttemptId, o: Owner)
    requires tx in db.txs
  {
    AttemptSeen(db, tx, a).Some? && AttemptSeen(db, tx, a).value.HeldBy(t, o)
  }

  predicate Open(db: Db, tx: TxId, a: AttemptId)
    requires tx in db.txs
  {
    AttemptSeen(db, tx, a).Some? && AttemptSeen(db, tx, a).value.status == InProgress
  }

  predicate Renewable(db: Db, tx: TxId, a: AttemptId, o: Owner)
    requires tx in db.txs
  {
    Open(db, tx, a) && AttemptSeen(db, tx, a).value.owner == o
  }

  /** The unique keys of the attempts table: the id, and the number within a task. */
  predicate Clashes(rows: map<AttemptId, Attempt>, a: AttemptId, row: Attempt) {
    a in rows || exists b :: b in rows && rows[b].task == row.task && rows[b].number == row.number
  }

  /** An uncommitted insert of another transaction that an insert must wait for. */
  predicate AwaitsInsert(db: Db, tx: TxId, a: AttemptId, row: Attempt) {
    exists u :: u in db.txs && u != tx && Clashes(db.txs[u].attempts, a, row)
  }

  // ---------- steps ----------

  /** The step can happen now: its transaction is open and no row it would lock is locked by
      another. */
  predicate Enabled(db: Db, step: Step) {
    match step
    case Tick(_) => true
    case AddTask(t) => t !in db.tasks
    case Begin(tx) => tx !in db.txs
    case LockTask(tx, t) => tx in db.txs && MayLock(db.taskLocks, t, tx)
    case HoldAttempt(tx, t, a, o) =>
      && tx in db.txs && t in db.taskLocks && db.taskLocks[t] == tx
      && (Held(db, tx, t, a, o) ==> MayLock(db.attemptLocks, a, tx))
    case CreateAttempt(tx, a, row) =>
      tx in db.txs && !AwaitsInsert(db, tx, a, row) && MayLock(db.attemptLocks, a, tx)
    case FinishAttempt(tx, a, st) =>
      tx in db.txs && st != InProgress && (Open(db, tx, a) ==> MayLock(db.attemptLocks, a, tx))
    case RenewLease(tx, a, o, _) =>
      tx in db.txs && (Renewable(db, tx, a, o) ==> MayLock(db.attemptLocks, a, tx))
    case TransitionTask(tx, t, from, to) =>
      tx in db.txs && (StatusSeen(db, tx, t) == Some(from) ==> MayLock(db.taskLocks, t, tx))
    case Commit(tx) => tx in db.txs
    case Abort(tx) => tx in db.txs
  }

  function With(db: Db, tx: TxId, x: Tx): Db { db.(txs := db.txs[tx := x]) }

  /** x becomes the transaction's own state, and it locks row a. */
  function WithAttempt(db: Db, tx: TxId, x: Tx, a: AttemptId): Db {
    db.(txs := db.txs[tx := x], attemptLocks := db.attemptLocks[a := tx])
  }

  /** The transaction's state with its version of row a replaced. */
  function Written(x: Tx, a: AttemptId, row: Attempt): Tx { x.(attempts := x.attempts[a := row]) }

  /** now() is when the transaction began. */
  function Renewed(x: Tx, a: AttemptId, row: Attempt, ttl: int): Tx {
    Written(x, a, row.(expires := Some(x.start + ttl))).(grants := x.grants[a := x.start])
  }

  function Moves(x: Tx, t: TaskId): seq<Status> { if t in x.moves then x.moves[t] else [] }

  function Free<K>(locks: map<K, TxId>, tx: TxId): map<K, TxId> {
    map k | k in locks && locks[k] != tx :: locks[k]
  }

  function End(db: Db, tx: TxId): Db {
    db.(txs := db.txs - {tx}, taskLocks := Free(db.taskLocks, tx), attemptLocks := Free(db.attemptLocks, tx))
  }

  function Last(s: seq<Status>, default: Status): Status { if s == [] then default else s[|s| - 1] }

  function Apply(db: Db, step: Step): Db
    requires Enabled(db, step)
  {
    match step
    case Tick(d) => db.(now := db.now + d)
    case AddTask(t) => db.(tasks := db.tasks[t := Pending], history := db.history[t := [Pending]])
    case Begin(tx) => With(db, tx, Tx(db.now, map[], map[], map[], {}))
    case LockTask(tx, t) =>
      if t in db.tasks then db.(taskLocks := db.taskLocks[t := tx]) else db
    case HoldAttempt(tx, t, a, o) =>
      if Held(db, tx, t, a, o)
      then WithAttempt(db, tx, db.txs[tx].(fences := db.txs[tx].fences + {Fence(t, a, o)}), a)
      else db
    case CreateAttempt(tx, a, row) =>
      if Clashes(db.attempts, a, row) || Clashes(db.txs[tx].attempts, a, row) || row.task !in db.tasks then db
      else WithAttempt(db, tx, Written(db.txs[tx], a, row), a)
    case FinishAttempt(tx, a, st) =>
      if Open(db, tx, a) then WithAttempt(db, tx, Written(db.txs[tx], a, AttemptSeen(db, tx, a).value.(status := st)), a) else db
    case RenewLease(tx, a, o, ttl) =>
      if Renewable(db, tx, a, o)
      then WithAttempt(db, tx, Renewed(db.txs[tx], a, AttemptSeen(db, tx, a).value, ttl), a)
      else db
    case TransitionTask(tx, t, from, to) =>
      if CanTransitionTo(from, to) && StatusSeen(db, tx, t) == Some(from)
      then
        var x := db.txs[tx];
        db.(txs := db.txs[tx := x.(moves := x.moves[t := Moves(x, t) + [to]])], taskLocks := db.taskLocks[t := tx])
      else db
    case Commit(tx) =>
      var x := db.txs[tx];
      End(db, tx).(
        attempts := db.attempts + x.attempts,
        tasks := map t | t in db.tasks :: Last(Moves(x, t), db.tasks[t]),
        history := map t | t in db.history :: db.history[t] + Moves(x, t),
        grants := db.grants + x.grants)
    case Abort(tx) => End(db, tx)
  }

  predicate CanRun(db: Db, steps: seq<Step>)
    decreases |steps|
  {
    steps == [] || (Enabled(db, steps[0]) && CanRun(Apply(db, steps[0]), steps[1..]))
  }

  function Run(db: Db, steps: seq<Step>): Db
    requires CanRun(db, steps)
    decreases |steps|
  {
    if steps == [] then db else Run(Apply(db, steps[0]), steps[1..])
  }

  const INIT := Db(0, map[], map[], map[], map[], map[], map[], map[])

  // ---------- who waits for whom ----------

  /** Another transaction holds the lock. */
  predicate HeldByOther<K>(locks: map<K, TxId>, k: K, tx: TxId) { k in locks && locks[k] != tx }

  /** A statement of an open transaction waits exactly where it would change or lock a row that another
      transaction has locked; never for itself, and not where its WHERE clause fails. */
  lemma WaitsIff(db: Db, tx: TxId, t: TaskId, a: AttemptId, o: Owner, ttl: int, from: Status, to: Status, outcome: AttemptStatus)
    requires tx in db.txs && outcome != InProgress
    ensures Enabled(db, LockTask(tx, t)) <==> !HeldByOther(db.taskLocks, t, tx)
    ensures Enabled(db, TransitionTask(tx, t, from, to)) <==>
      !(StatusSeen(db, tx, t) == Some(from) && HeldByOther(db.taskLocks, t, tx))
    ensures LockedBy(db.taskLocks, t, tx) ==> (Enabled(db, HoldAttempt(tx, t, a, o)) <==>
      !(HeldByOther(db.attemptLocks, a, tx) && AttemptSeen(db, tx, a).Some?
        && AttemptSeen(db, tx, a).value == Attempt(t, AttemptSeen(db, tx, a).value.number, InProgress, o, AttemptSeen(db, tx, a).value.expires)))
    ensures Enabled(db, FinishAttempt(tx, a, outcome)) <==>
      !(HeldByOther(db.attemptLocks, a, tx) && AttemptSeen(db, tx, a).Some? && AttemptSeen(db, tx, a).value.status == InProgress)
    ensures Enabled(db, RenewLease(tx, a, o, ttl)) <==>
      !(HeldByOther(db.attemptLocks, a, tx) && AttemptSeen(db, tx, a).Some? && AttemptSeen(db, tx, a).value.status == InProgress
        && AttemptSeen(db, tx, a).value.owner == o)
    ensures Enabled(db, Commit(tx)) && Enabled(db, Abort(tx))
  {
  }

  /** An insert waits for another transaction that holds the row, or that has inserted the same id, or the
      same number of the same task. */
  lemma InsertWaitsIff(db: Db, tx: TxId, a: AttemptId, row: Attempt)
    requires tx in db.txs
    ensures Enabled(db, CreateAttempt(tx, a, row)) <==>
      && !HeldByOther(db.attemptLocks, a, tx)
      && forall u :: u in db.txs && u != tx ==>
           && a !in db.txs[u].attempts
           && forall b :: b in db.txs[u].attempts ==>
                !(db.txs[u].attempts[b].task == row.task && db.txs[u].attempts[b].number == row.number)
  {
  }

  /** Time passes, tasks are created, and transactions begin, with nothing of their own; nothing else changes. */
  lemma Openings(db: Db, d: nat, t: TaskId, tx: TxId)
    requires t !in db.tasks && tx !in db.txs
    ensures Enabled(db, Tick(d)) && Apply(db, Tick(d)).now == db.now + d
    ensures Enabled(db, AddTask(t)) && Apply(db, AddTask(t)).tasks == db.tasks[t := Pending]
    ensures Enabled(db, Begin(tx)) && tx in Apply(db, Begin(tx)).txs && Apply(db, Begin(tx)).txs[tx].start == db.now
    ensures Apply(db, Begin(tx)).txs[tx].attempts == map[] && Apply(db, Begin(tx)).txs[tx].moves == map[]
    ensures Apply(db, Begin(tx)).txs[tx].fences == {}
  {
  }

  // ---------- the invariant ----------

  /** A transaction's version of an attempt: a change to a row that is committed as in progress, or
      a row it inserted itself. Only the transaction holding the row's lock has one. */
  predicate RowOk(db: Db, tx: TxId, a: AttemptId)
    requires tx in db.txs && a in db.txs[tx].attempts
  {
    var row := db.txs[tx].attempts[a];
    && a in db.attemptLocks && db.attemptLocks[a] == tx
    && (a in db.attempts ==>
          var was := db.attempts[a];
          && was.status == InProgress && was.task == row.task && was.number == row.number && was.owner == row.owner
          && (a !in db.txs[tx].grants ==> was.expires == row.expires))
  }

  /** A transaction's moves of a task: a walk on from the committed status. */
  predicate MovesOk(db: Db, tx: TxId, t: TaskId)
    requires tx in db.txs && t in db.txs[tx].moves
  {
    && t in db.tasks && t in db.taskLocks && db.taskLocks[t] == tx
    && db.txs[tx].moves[t] != []
    && Path([db.tasks[t]] + db.txs[tx].moves[t])
  }

  /** While a transaction that passed the fence is open, both rows are locked by it and the
      committed attempt is in progress under the owner it passed with. */
  predicate FenceOk(db: Db, tx: TxId, f: Fence) {
    && f.task in db.taskLocks && db.taskLocks[f.task] == tx
    && f.attempt in db.attemptLocks && db.attemptLocks[f.attempt] == tx
    && (if f.attempt in db.attempts then db.attempts[f.attempt].HeldBy(f.task, f.owner)
        else tx in db.txs && f.attempt in db.txs[tx].attempts)
  }

  predicate TxOk(db: Db, tx: TxId)
    requires tx in db.txs
  {
    && (forall a :: a in db.txs[tx].attempts ==> RowOk(db, tx, a))
    && (forall t :: t in db.txs[tx].moves ==> MovesOk(db, tx, t))
    && (forall f :: f in db.txs[tx].fences ==> FenceOk(db, tx, f))
    && db.txs[tx].grants.Keys <= db.txs[tx].attempts.Keys
  }

  predicate HistoryOk(db: Db, t: TaskId)
    requires t in db.tasks
  {
    && t in db.history && Path(db.history[t])
    && db.history[t][0] == Pending && db.history[t][|db.history[t]| - 1] == db.tasks[t]
  }

  predicate Inv(db: Db) {
    && (forall tx :: tx in db.txs ==> TxOk(db, tx))
    && (forall t :: t in db.tasks ==> HistoryOk(db, t))
  }

  // ---------- steps of other transactions ----------

  function TxOf(step: Step): Option<TxId> {
    match step
    case Tick(_) => None
    case AddTask(_) => None
    case Begin(tx) => Some(tx)
    case LockTask(tx, _) => Some(tx)
    case HoldAttempt(tx, _, _, _) => Some(tx)
    case CreateAttempt(tx, _, _) => Some(tx)
    case FinishAttempt(tx, _, _) => Some(tx)
    case RenewLease(tx, _, _, _) => Some(tx)
    case TransitionTask(tx, _, _, _) => Some(tx)
    case Commit(tx) => Some(tx)
    case Abort(tx) => Some(tx)
  }

  predicate LockedBy<K>(locks: map<K, TxId>, k: K, tx: TxId) { k in locks && locks[k] == tx }

  /** Two states in which the same committed version of an attempt, if any, is there. */
  predicate SameAttempt(db: Db, after: Db, a: AttemptId) {
    (a in db.attempts <==> a in after.attempts) && (a in db.attempts ==> db.attempts[a] == after.attempts[a])
  }

  predicate SameTask(db: Db, after: Db, t: TaskId) {
    t in db.tasks ==> t in after.tasks && db.tasks[t] == after.tasks[t]
  }

  /** Nothing a transaction holds was touched: its own versions, its locks, and what is committed
      in the rows it locked. */
  ghost predicate Undisturbed(db: Db, after: Db, tx: TxId) {
    && tx in db.txs && tx in after.txs && after.txs[tx] == db.txs[tx]
    && (forall a :: LockedBy(db.attemptLocks, a, tx) ==> LockedBy(after.attemptLocks, a, tx) && SameAttempt(db, after, a))
    && (forall t :: LockedBy(db.taskLocks, t, tx) ==> LockedBy(after.taskLocks, t, tx) && SameTask(db, after, t))
  }

  /** Isolation: whatever another transaction does, commits included, leaves a transaction
      undisturbed. */
  lemma OthersDoNotDisturb(db: Db, step: Step, tx: TxId)
    requires Inv(db) && Enabled(db, step) && tx in db.txs && TxOf(step) != Some(tx)
    ensures Undisturbed(db, Apply(db, step), tx)
  {
    if step.Commit? || step.Abort? {
      EndDoesNotDisturb(db, step, tx);
    } else {
      StatementDoesNotDisturb(db, step, tx);
    }
  }

  lemma StatementDoesNotDisturb(db: Db, step: Step, tx: TxId)
    requires Enabled(db, step) && tx in db.txs && TxOf(step) != Some(tx) && !step.Commit? && !step.Abort?
    ensures Undisturbed(db, Apply(db, step), tx)
  {
    match step
    case CreateAttempt(u, a, row) => WriteDoesNotDisturb(db, u, Written(db.txs[u], a, row), a, tx);
    case FinishAttempt(u, a, st) =>
      if Open(db, u, a) {
        WriteDoesNotDisturb(db, u, Written(db.txs[u], a, AttemptSeen(db, u, a).value.(status := st)), a, tx);
      }
    case RenewLease(u, a, o, ttl) =>
      if Renewable(db, u, a, o) {
        WriteDoesNotDisturb(db, u, Renewed(db.txs[u], a, AttemptSeen(db, u, a).value, ttl), a, tx);
      }
    case HoldAttempt(u, t, a, o) =>
      if Held(db, u, t, a, o) {
        WriteDoesNotDisturb(db, u, db.txs[u].(fences := db.txs[u].fences + {Fence(t, a, o)}), a, tx);
      }
    case _ =>
  }

  lemma EndDoesNotDisturb(db: Db, step: Step, tx: TxId)
    requires Inv(db) && (step.Commit? || step.Abort?) && Enabled(db, step) && tx in db.txs && tx != step.tx
    ensures Undisturbed(db, Apply(db, step), tx)
  {
    var after := Apply(db, step);
    if step.Commit? {
      CommitTouches(db, step.tx);
    }
    forall a | LockedBy(db.attemptLocks, a, tx)
      ensures LockedBy(after.attemptLocks, a, tx) && SameAttempt(db, after, a)
    {
      assert !LockedBy(db.attemptLocks, a, step.tx);
    }
    forall t | LockedBy(db.taskLocks, t, tx) ensures LockedBy(after.taskLocks, t, tx) && SameTask(db, after, t) {
      assert !LockedBy(db.taskLocks, t, step.tx);
    }
  }

  lemma WriteDoesNotDisturb(db: Db, u: TxId, x: Tx, a: AttemptId, tx: TxId)
    requires tx in db.txs && tx != u && MayLock(db.attemptLocks, a, u)
    ensures Undisturbed(db, WithAttempt(db, u, x, a), tx)
  {
  }

  /** A commit changes only rows its transaction locked. */
  lemma CommitTouches(db: Db, tx: TxId)
    requires Inv(db) && tx in db.txs
    ensures forall a :: !LockedBy(db.attemptLocks, a, tx) ==> SameAttempt(db, Apply(db, Commit(tx)), a)
    ensures forall t :: !LockedBy(db.taskLocks, t, tx) ==> SameTask(db, Apply(db, Commit(tx)), t)
  {
    assert TxOk(db, tx);
    forall a | !LockedBy(db.attemptLocks, a, tx) ensures SameAttempt(db, Apply(db, Commit(tx)), a) {
      assert a !in db.txs[tx].attempts;
    }
    forall t | !LockedBy(db.taskLocks, t, tx) ensures SameTask(db, Apply(db, Commit(tx)), t) {
      assert t !in db.txs[tx].moves;
    }
  }

  lemma UndisturbedKeepsTx(db: Db, after: Db, tx: TxId)
    requires Undisturbed(db, after, tx) && TxOk(db, tx)
    ensures TxOk(after, tx)
  {
    forall a | a in after.txs[tx].attempts ensures RowOk(after, tx, a) {
      assert RowOk(db, tx, a) && LockedBy(db.attemptLocks, a, tx);
    }
    forall t | t in after.txs[tx].moves ensures MovesOk(after, tx, t) {
      assert MovesOk(db, tx, t) && LockedBy(db.taskLocks, t, tx);
    }
    forall f | f in after.txs[tx].fences ensures FenceOk(after, tx, f) {
      assert FenceOk(db, tx, f) && LockedBy(db.taskLocks, f.task, tx) && LockedBy(db.attemptLocks, f.attempt, tx);
    }
  }

  // ---------- steps of a transaction itself ----------

  /** Writing a version of a row the transaction may lock: a change to an open row, or an insert. */
  lemma WriteKeepsTx(db: Db, tx: TxId, x: Tx, a: AttemptId, row: Attempt)
    requires tx in db.txs && TxOk(db, tx) && MayLock(db.attemptLocks, a, tx)
    requires x.attempts == db.txs[tx].attempts[a := row] && x.moves == db.txs[tx].moves && x.fences == db.txs[tx].fences
    requires db.txs[tx].grants.Keys <= x.grants.Keys <= db.txs[tx].grants.Keys + {a}
    requires AttemptSeen(db, tx, a).Some? && a in db.attempts ==>
      && SameKey(AttemptSeen(db, tx, a).value, row)
      && (a !in db.txs[tx].attempts ==> db.attempts[a].status == InProgress)
      && (a !in x.grants ==> AttemptSeen(db, tx, a).value.expires == row.expires)
    ensures TxOk(WithAttempt(db, tx, x, a), tx)
  {
    var after := WithAttempt(db, tx, x, a);
    forall b | b in x.attempts ensures RowOk(after, tx, b) {
      if b in db.txs[tx].attempts {
        assert RowOk(db, tx, b);
      }
    }
    forall t | t in x.moves ensures MovesOk(after, tx, t) {
      assert MovesOk(db, tx, t);
    }
    forall f | f in x.fences ensures FenceOk(after, tx, f) {
      assert FenceOk(db, tx, f);
    }
  }

  predicate SameKey(r: Attempt, s: Attempt) { r.task == s.task && r.number == s.number && r.owner == s.owner }

  lemma CreateKeepsTx(db: Db, tx: TxId, a: AttemptId, row: Attempt)
    requires Inv(db) && Enabled(db, CreateAttempt(tx, a, row))
    ensures TxOk(Apply(db, CreateAttempt(tx, a, row)), tx)
  {
    assert TxOk(db, tx);
    if !(Clashes(db.attempts, a, row) || Clashes(db.txs[tx].attempts, a, row) || row.task !in db.tasks) {
      WriteKeepsTx(db, tx, Written(db.txs[tx], a, row), a, row);
    }
  }

  lemma FinishKeepsTx(db: Db, tx: TxId, a: AttemptId, st: AttemptStatus)
    requires Inv(db) && Enabled(db, FinishAttempt(tx, a, st))
    ensures TxOk(Apply(db, FinishAttempt(tx, a, st)), tx)
  {
    assert TxOk(db, tx);
    if Open(db, tx, a) {
      var row := AttemptSeen(db, tx, a).value.(status := st);
      WriteKeepsTx(db, tx, Written(db.txs[tx], a, row), a, row);
    }
  }

  lemma RenewKeepsTx(db: Db, tx: TxId, a: AttemptId, o: Owner, ttl: int)
    requires Inv(db) && Enabled(db, RenewLease(tx, a, o, ttl))
    ensures TxOk(Apply(db, RenewLease(tx, a, o, ttl)), tx)
  {
    assert TxOk(db, tx);
    if Renewable(db, tx, a, o) {
      var row := AttemptSeen(db, tx, a).value;
      WriteKeepsTx(db, tx, Renewed(db.txs[tx], a, row, ttl), a, row.(expires := Some(db.txs[tx].start + ttl)));
    }
  }

  lemma HoldKeepsTx(db: Db, tx: TxId, t: TaskId, a: AttemptId, o: Owner)
    requires Inv(db) && Enabled(db, HoldAttempt(tx, t, a, o))
    ensures TxOk(Apply(db, HoldAttempt(tx, t, a, o)), tx)
  {
    assert TxOk(db, tx);
    var after := Apply(db, HoldAttempt(tx, t, a, o));
    forall b | b in after.txs[tx].attempts ensures RowOk(after, tx, b) {
      assert RowOk(db, tx, b);
    }
    forall u | u in after.txs[tx].moves ensures MovesOk(after, tx, u) {
      assert MovesOk(db, tx, u);
    }
    forall f | f in after.txs[tx].fences ensures FenceOk(after, tx, f) {
      if f in db.txs[tx].fences {
        assert FenceOk(db, tx, f);
      } else if a in db.txs[tx].attempts {
        assert RowOk(db, tx, a);
      }
    }
  }

  lemma TransitionKeepsTx(db: Db, tx: TxId, t: TaskId, from: Status, to: Status)
    requires Inv(db) && Enabled(db, TransitionTask(tx, t, from, to))
    ensures TxOk(Apply(db, TransitionTask(tx, t, from, to)), tx)
  {
    assert TxOk(db, tx);
    var after := Apply(db, TransitionTask(tx, t, from, to));
    forall b | b in after.txs[tx].attempts ensures RowOk(after, tx, b) {
      assert RowOk(db, tx, b);
    }
    forall u | u in after.txs[tx].moves ensures MovesOk(after, tx, u) {
      if u in db.txs[tx].moves {
        assert MovesOk(db, tx, u);
      }
      if u == t && after != db {
        MoveExtends(db.tasks[t], Moves(db.txs[tx], t), to);
      }
    }
    forall f | f in after.txs[tx].fences ensures FenceOk(after, tx, f) {
      assert FenceOk(db, tx, f);
    }
  }

  lemma MoveExtends(st: Status, moves: seq<Status>, to: Status)
    requires Path([st] + moves) && CanTransitionTo(Last(moves, st), to)
    ensures Path([st] + (moves + [to]))
  {
    assert [st] + (moves + [to]) == ([st] + moves) + [to];
    PathJoin([st] + moves, [to]);
  }

  lemma StepKeepsTx(db: Db, step: Step, tx: TxId)
    requires Inv(db) && Enabled(db, step) && tx in Apply(db, step).txs
    ensures TxOk(Apply(db, step), tx)
  {
    if TxOf(step) != Some(tx) {
      OthersDoNotDisturb(db, step, tx);
      UndisturbedKeepsTx(db, Apply(db, step), tx);
    } else {
      match step
      case Begin(_) =>
      case LockTask(_, t) => LockKeepsTx(db, tx, t);
      case HoldAttempt(_, t, a, o) => HoldKeepsTx(db, tx, t, a, o);
      case CreateAttempt(_, a, row) => CreateKeepsTx(db, tx, a, row);
      case FinishAttempt(_, a, st) => FinishKeepsTx(db, tx, a, st);
      case RenewLease(_, a, o, ttl) => RenewKeepsTx(db, tx, a, o, ttl);
      case TransitionTask(_, t, from, to) => TransitionKeepsTx(db, tx, t, from, to);
    }
  }

  lemma LockKeepsTx(db: Db, tx: TxId, t: TaskId)
    requires Inv(db) && Enabled(db, LockTask(tx, t))
    ensures TxOk(Apply(db, LockTask(tx, t)), tx)
  {
    assert TxOk(db, tx);
    UndisturbedKeepsTx(db, Apply(db, LockTask(tx, t)), tx);
  }

  lemma StepKeepsHistory(db: Db, step: Step, t: TaskId)
    requires Inv(db) && Enabled(db, step) && t in Apply(db, step).tasks
    ensures HistoryOk(Apply(db, step), t)
    ensures t in db.tasks ==> t in db.history && db.history[t] <= Apply(db, step).history[t]
  {
    if t in db.tasks {
      assert HistoryOk(db, t);
      if step.Commit? && t in db.txs[step.tx].moves {
        assert TxOk(db, step.tx) && MovesOk(db, step.tx, t);
        PathJoin(db.history[t], db.txs[step.tx].moves[t]);
      }
    }
  }

  lemma StepKeepsInv(db: Db, step: Step)
    requires Inv(db) && Enabled(db, step)
    ensures Inv(Apply(db, step))
  {
    forall tx | tx in Apply(db, step).txs ensures TxOk(Apply(db, step), tx) {
      StepKeepsTx(db, step, tx);
    }
    forall t | t in Apply(db, step).tasks ensures HistoryOk(Apply(db, step), t) {
      StepKeepsHistory(db, step, t);
    }
  }

  lemma {:induction false} RunKeepsInv(db: Db, steps: seq<Step>)
    requires Inv(db) && CanRun(db, steps)
    ensures Inv(Run(db, steps))
    decreases |steps|
  {
    if steps != [] {
      StepKeepsInv(db, steps[0]);
      RunKeepsInv(Apply(db, steps[0]), steps[1..]);
    }
  }
}
