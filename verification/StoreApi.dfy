/** The store's calls, each against the step of the shared database it stands for
    (internal/store/execution.go, internal/store/task.go).

    A call made while another transaction holds a row it needs waits; each method is the moment the
    wait is over. */
module StoreApi {
  import opened Common
  import opened TaskLifecycle
  import opened TaskStore
  import opened LeaseFence

  datatype StoreError = NotInTransaction | NotFound | LeaseLost | Conflict | BadTransition | NotAnOutcome

  datatype StuckAttempt = StuckAttempt(task: TaskId, status: Status, lease: Option<int>)

  /** The status of an attempt's task, as a transaction sees it. */
  function Reported(db: Db, tx: TxId, a: AttemptId): Result<Status, StoreError>
    requires tx in db.txs
  {
    var seen := AttemptSeen(db, tx, a);
    if seen.None? || StatusSeen(db, tx, seen.value.task).None? then Err(NotFound)
    else Ok(StatusSeen(db, tx, seen.value.task).value)
  }

  // ---------- a renewal that waits ----------

  /** What happens between the start of a renewal and its update: nothing, unless the row it found
      is locked by another transaction, and then any steps of others. */
  predicate Waited(snapshot: Db, steps: seq<Step>, tx: TxId, a: AttemptId, o: Owner) {
    && tx in snapshot.txs && CanRun(snapshot, steps)
    && (forall i :: 0 <= i < |steps| ==> TxOf(steps[i]) != Some(tx))
    && (steps != [] ==> Renewable(snapshot, tx, a, o) && !MayLock(snapshot.attemptLocks, a, tx))
  }

  /** The steps of others leave a transaction as it is, and tasks where they are. */
  lemma {:induction false} OthersRun(db: Db, steps: seq<Step>, tx: TxId)
    requires Inv(db) && CanRun(db, steps) && tx in db.txs
    requires forall i :: 0 <= i < |steps| ==> TxOf(steps[i]) != Some(tx)
    ensures Undisturbed(db, Run(db, steps), tx)
    decreases |steps|
  {
    if steps != [] {
      assert TxOf(steps[0]) != Some(tx);
      OthersDoNotDisturb(db, steps[0], tx);
      StepKeepsInv(db, steps[0]);
      OthersRun(Apply(db, steps[0]), steps[1..], tx);
    }
  }

  /** The task of an attempt a renewal speaks of, of which its own transaction has changed nothing. */
  predicate Watched(db: Db, tx: TxId, a: AttemptId)
    requires tx in db.txs
  {
    && a in db.attempts && a !in db.txs[tx].attempts
    && db.attempts[a].task in db.tasks && db.attempts[a].task !in db.txs[tx].moves
  }

  /** A task at two times: the earlier status stands in the later history, which has grown by the moves
      committed in between, and is over, where the later one is, exactly if there were none. */
  predicate Aged(before: Db, after: Db, t: TaskId) {
    && t in before.tasks && t in before.history && t in after.tasks && t in after.history
    && 0 < |before.history[t]| <= |after.history[t]|
    && before.tasks[t] == after.history[t][|before.history[t]| - 1]
    && after.tasks[t] == after.history[t][|after.history[t]| - 1]
    && (Terminal(after.tasks[t]) ==> (Terminal(before.tasks[t]) <==> |before.history[t]| == |after.history[t]|))
  }

  /** What a renewal returns, Reported(snapshot, tx, a), is the status its task had when it was asked,
      however far the task has moved by the time the lease is looked at. */
  lemma RenewalReports(snapshot: Db, steps: seq<Step>, db: Db, tx: TxId, a: AttemptId, o: Owner)
    requires Inv(snapshot) && Waited(snapshot, steps, tx, a, o) && Watched(snapshot, tx, a) && db == Run(snapshot, steps)
    ensures
      var t := snapshot.attempts[a].task;
      && Aged(snapshot, db, t) && tx in db.txs && Watched(db, tx, a)
      && Reported(snapshot, tx, a) == Ok(db.history[t][|snapshot.history[t]| - 1])
      && Reported(db, tx, a) == Ok(db.history[t][|db.history[t]| - 1])
  {
    RunKeepsInv(snapshot, steps);
    HistoryAt(snapshot, steps, snapshot.attempts[a].task);
    OthersRun(snapshot, steps, tx);
    StaysWatched(snapshot, steps, tx, a, o);
    ReportsAt(snapshot, db, tx, a);
  }

  lemma ReportsAt(before: Db, after: Db, tx: TxId, a: AttemptId)
    requires tx in before.txs && tx in after.txs && Watched(before, tx, a) && Watched(after, tx, a)
    requires after.attempts[a].task == before.attempts[a].task && Aged(before, after, before.attempts[a].task)
    ensures
      var t := before.attempts[a].task;
      && Reported(before, tx, a) == Ok(after.history[t][|before.history[t]| - 1])
      && Reported(after, tx, a) == Ok(after.history[t][|after.history[t]| - 1])
  {
    WatchedReports(before, tx, a);
    WatchedReports(after, tx, a);
  }

  lemma StaysWatched(snapshot: Db, steps: seq<Step>, tx: TxId, a: AttemptId, o: Owner)
    requires Inv(snapshot) && Waited(snapshot, steps, tx, a, o) && Watched(snapshot, tx, a)
    requires tx in Run(snapshot, steps).txs && Run(snapshot, steps).txs[tx] == snapshot.txs[tx]
    ensures Watched(Run(snapshot, steps), tx, a) && Run(snapshot, steps).attempts[a].task == snapshot.attempts[a].task
  {
    IdentityForever(snapshot, steps, a);
    HistoryGrows(snapshot, steps, snapshot.attempts[a].task);
  }

  lemma WatchedReports(db: Db, tx: TxId, a: AttemptId)
    requires tx in db.txs && Watched(db, tx, a)
    ensures Reported(db, tx, a) == Ok(db.tasks[db.attempts[a].task])
  {
  }

  lemma HistoryAt(db: Db, steps: seq<Step>, t: TaskId)
    requires Inv(db) && CanRun(db, steps) && t in db.tasks && Inv(Run(db, steps))
    ensures Aged(db, Run(db, steps), t)
  {
    HistoryGrows(db, steps, t);
    assert HistoryOk(db, t) && HistoryOk(Run(db, steps), t);
    PathFacts(Run(db, steps).history[t], |db.history[t]| - 1);
  }

  /** So a renewal that waited behind the transaction that ends its task reports that the task goes
      on, though it is over for good. */
  lemma WaitedRenewalReportsOld(db: Db, tx: TxId, u: TxId, a: AttemptId, o: Owner)
    requires Inv(db) && tx in db.txs && u in db.txs && tx != u && Watched(db, tx, a)
    requires Renewable(db, tx, a, o) && LockedBy(db.attemptLocks, a, u)
    requires db.attempts[a].task in db.txs[u].moves
    requires Terminal(Last(Moves(db.txs[u], db.attempts[a].task), Pending))
    ensures
      var after, t := Apply(db, Commit(u)), db.attempts[a].task;
      && Waited(db, [Commit(u)], tx, a, o) && Run(db, [Commit(u)]) == after && tx in after.txs
      && Reported(db, tx, a) == Ok(db.tasks[t]) && !Terminal(db.tasks[t])
      && Reported(after, tx, a) == Ok(Last(Moves(db.txs[u], t), Pending))
  {
    var t := db.attempts[a].task;
    OneCommit(db, u);
    MovedOn(db, u, t);
    RenewalReports(db, [Commit(u)], Apply(db, Commit(u)), tx, a, o);
  }

  lemma MovedOn(db: Db, u: TxId, t: TaskId)
    requires Inv(db) && u in db.txs && t in db.txs[u].moves
    ensures
      var after := Apply(db, Commit(u));
      && t in db.tasks && t in after.tasks && after.tasks[t] == Last(Moves(db.txs[u], t), Pending)
      && t in db.history && t in after.history && |db.history[t]| < |after.history[t]|
  {
    assert TxOk(db, u) && MovesOk(db, u, t) && HistoryOk(db, t);
  }

  lemma OneCommit(db: Db, u: TxId)
    requires u in db.txs
    ensures CanRun(db, [Commit(u)]) && Run(db, [Commit(u)]) == Apply(db, Commit(u))
  {
    assert [Commit(u)][1..] == [];
  }

  class Store {
    var db: Db

    constructor ()
      ensures db == INIT
    {
      db := INIT;
    }

    /** Locks the task row, then the attempt row, and passes just when the attempt is in progress
        for this task under this owner; a refusal leaves no more than the task's lock behind. */
    method HoldLease(tx: Option<TxId>, t: TaskId, a: AttemptId, o: Owner) returns (r: Result<(), StoreError>)
      requires tx.Some? ==>
        && tx.value in db.txs && MayLock(db.taskLocks, t, tx.value)
        && (Held(db, tx.value, t, a, o) ==> MayLock(db.attemptLocks, a, tx.value))
      modifies this
      ensures tx.None? ==> r == Err(NotInTransaction) && db == old(db)
      ensures tx.Some? && t !in old(db).tasks ==> r == Err(NotFound) && db == old(db)
      ensures tx.Some? && t in old(db).tasks ==>
        && Enabled(old(db), LockTask(tx.value, t))
        && Enabled(Apply(old(db), LockTask(tx.value, t)), HoldAttempt(tx.value, t, a, o))
        && db == Apply(Apply(old(db), LockTask(tx.value, t)), HoldAttempt(tx.value, t, a, o))
        && (r == Ok(()) || r == Err(LeaseLost))
        && (r.Ok? <==>
              var seen := AttemptSeen(old(db), tx.value, a);
              seen.Some? && seen.value.task == t && seen.value.owner == o && seen.value.status == InProgress)
      ensures r.Ok? ==> Fence(t, a, o) in db.txs[tx.value].fences
    {
      if tx.None? {
        return Err(NotInTransaction);
      }
      if t !in db.tasks {
        return Err(NotFound);
      }
      db := db.(taskLocks := db.taskLocks[t := tx.value]);
      if a in db.txs[tx.value].attempts {
        if !db.txs[tx.value].attempts[a].HeldBy(t, o) {
          return Err(LeaseLost);
        }
      } else if a !in db.attempts || !db.attempts[a].HeldBy(t, o) {
        return Err(LeaseLost);
      }
      var x := db.txs[tx.value];
      db := db.(txs := db.txs[tx.value := x.(fences := x.fences + {Fence(t, a, o)})],
                attemptLocks := db.attemptLocks[a := tx.value]);
      return Ok(());
    }

    method CreateAttempt(tx: TxId, a: AttemptId, row: Attempt) returns (r: Result<Attempt, StoreError>)
      requires Enabled(db, Step.CreateAttempt(tx, a, row))
      modifies this
      ensures db == Apply(old(db), Step.CreateAttempt(tx, a, row))
      ensures r.Ok? <==>
        && row.task in old(db).tasks && a !in old(db).attempts && a !in old(db).txs[tx].attempts
        && (forall b :: b in old(db).attempts ==> !(old(db).attempts[b].task == row.task && old(db).attempts[b].number == row.number))
        && (forall b :: b in old(db).txs[tx].attempts ==>
              !(old(db).txs[tx].attempts[b].task == row.task && old(db).txs[tx].attempts[b].number == row.number))
      ensures r.Ok? ==> r.value == row && AttemptSeen(db, tx, a) == Some(row)
      ensures r.Err? ==> db == old(db)
    {
      if row.task !in db.tasks {
        return Err(NotFound);
      }
      if Clashes(db.attempts, a, row) || Clashes(db.txs[tx].attempts, a, row) {
        return Err(Conflict);
      }
      var x := db.txs[tx];
      db := db.(txs := db.txs[tx := x.(attempts := x.attempts[a := row])], attemptLocks := db.attemptLocks[a := tx]);
      return Ok(row);
    }

    /** Finishing works once: only on an attempt this transaction sees in progress. */
    method FinishAttempt(tx: TxId, a: AttemptId, status: AttemptStatus) returns (r: Result<(), StoreError>)
      requires tx in db.txs && (Open(db, tx, a) ==> MayLock(db.attemptLocks, a, tx))
      modifies this
      ensures status == InProgress ==> r == Err(NotAnOutcome) && db == old(db)
      ensures status != InProgress ==>
        && db == Apply(old(db), Step.FinishAttempt(tx, a, status))
        && r == (if Open(old(db), tx, a) then Ok(()) else Err(Conflict))
        && (r.Ok? ==> AttemptSeen(db, tx, a) == Some(AttemptSeen(old(db), tx, a).value.(status := status)))
        && !Open(db, tx, a)
    {
      if status == InProgress {
        return Err(NotAnOutcome);
      }
      var seen := AttemptSeen(db, tx, a);
      if seen.None? || seen.value.status != InProgress {
        return Err(Conflict);
      }
      var x := db.txs[tx];
      db := db.(txs := db.txs[tx := x.(attempts := x.attempts[a := seen.value.(status := status)])],
                attemptLocks := db.attemptLocks[a := tx]);
      return Ok(());
    }

    /** A foreign or finished attempt's lease stays. The task's status is reported whether or not a
        lease was renewed, as of the statement's snapshot: what the transaction saw when the
        statement began, before it waited for the attempt's row. */
    method RenewLease(snapshot: Db, ghost waited: seq<Step>, tx: TxId, a: AttemptId, o: Owner, ttl: int)
      returns (r: Result<Status, StoreError>)
      requires Waited(snapshot, waited, tx, a, o) && db == Run(snapshot, waited)
      requires Enabled(db, Step.RenewLease(tx, a, o, ttl))
      modifies this
      ensures db == Apply(old(db), Step.RenewLease(tx, a, o, ttl))
      ensures !Renewable(old(db), tx, a, o) ==> db == old(db)
      ensures Renewable(old(db), tx, a, o) ==>
        AttemptSeen(db, tx, a) == Some(AttemptSeen(old(db), tx, a).value.(expires := Some(db.txs[tx].start + ttl)))
      ensures r == Reported(snapshot, tx, a)
    {
      r := Reported(snapshot, tx, a);
      var seen := AttemptSeen(db, tx, a);
      if seen.Some? && seen.value.owner == o && seen.value.status == InProgress {
        var x := db.txs[tx];
        var row := seen.value.(expires := Some(x.start + ttl));
        db := db.(txs := db.txs[tx := x.(attempts := x.attempts[a := row], grants := x.grants[a := x.start])],
                  attemptLocks := db.attemptLocks[a := tx]);
      }
    }

    /** The compare-and-set on a task's status, and which of its refusals the caller hears. */
    method TransitionTask(tx: TxId, t: TaskId, from: Status, to: Status) returns (r: Result<(), StoreError>)
      requires Enabled(db, Step.TransitionTask(tx, t, from, to))
      modifies this
      ensures db == Apply(old(db), Step.TransitionTask(tx, t, from, to))
      ensures r.Ok? <==> CanTransitionTo(from, to) && StatusSeen(old(db), tx, t) == Some(from)
      ensures r.Ok? ==> StatusSeen(db, tx, t) == Some(to)
      ensures r.Err? ==> db == old(db)
      ensures r == Err(BadTransition) <==> !CanTransitionTo(from, to)
      ensures r == Err(NotFound) <==> CanTransitionTo(from, to) && StatusSeen(old(db), tx, t).None?
    {
      if !CanTransitionTo(from, to) {
        return Err(BadTransition);
      }
      var current := StatusSeen(db, tx, t);
      if current != Some(from) {
        return Err(if current.None? then NotFound else Conflict);
      }
      var x := db.txs[tx];
      var moves := Moves(x, t) + [to];
      db := db.(txs := db.txs[tx := x.(moves := x.moves[t := moves])], taskLocks := db.taskLocks[t := tx]);
      return Ok(());
    }
  }

  /** The attempt with the highest number, and the number the next one gets. */
  method LatestAttempt(rows: map<AttemptId, Attempt>, ids: seq<AttemptId>, t: TaskId)
    returns (latest: Option<AttemptId>, next: nat)
    requires forall a :: a in rows <==> a in ids
    ensures latest.Some? ==> Latest(rows, t, latest.value) && next == rows[latest.value].number + 1
    ensures latest.None? ==> next == 1 && forall a :: a in rows ==> rows[a].task != t
    ensures forall a :: a in rows && rows[a].task == t ==> rows[a].number < next
  {
    latest, next := None, 1;
    for i := 0 to |ids|
      invariant latest.Some? ==> latest.value in rows && rows[latest.value].task == t && next == rows[latest.value].number + 1
      invariant latest.None? ==> next == 1 && forall j :: 0 <= j < i ==> rows[ids[j]].task != t
      invariant forall j :: 0 <= j < i && rows[ids[j]].task == t ==> rows[ids[j]].number < next
    {
      assert ids[i] in ids;
      var row := rows[ids[i]];
      if row.task == t && (latest.None? || next <= row.number) {
        latest, next := Some(ids[i]), row.number + 1;
      }
    }
    assert forall a :: a in rows ==> exists j :: 0 <= j < |ids| && ids[j] == a;
  }

  /** What the query asks of a task: running or verifying, and its latest attempt, if it has any, with
      no lease or one that has run out. */
  ghost predicate Listed(db: Db, t: TaskId) {
    && t in db.tasks && (db.tasks[t] == Running || db.tasks[t] == Verifying)
    && forall a :: Latest(db.attempts, t, a) ==>
         db.attempts[a].expires.None? || db.attempts[a].expires.value < db.now
  }

  ghost predicate ItemOk(db: Db, item: StuckAttempt) {
    && item.task in db.tasks && item.status == db.tasks[item.task]
    && (forall a :: Latest(db.attempts, item.task, a) ==> item.lease == db.attempts[a].expires)
    && ((forall a :: a in db.attempts ==> db.attempts[a].task != item.task) ==> item.lease.None?)
  }

  function TaskIds(items: seq<StuckAttempt>): seq<TaskId> { seq(|items|, i requires 0 <= i < |items| => items[i].task) }

  lemma LatestDecides(db: Db, t: TaskId, a: AttemptId)
    requires KeysOk(db) && t in db.tasks && Latest(db.attempts, t, a)
    ensures forall b :: Latest(db.attempts, t, b) ==> b == a
  {
    assert Version(db, a, db.attempts[a]);
    forall b | Latest(db.attempts, t, b) ensures b == a {
      assert Version(db, b, db.attempts[b]);
    }
  }

  /** One row of the query. */
  method StuckAt(db: Db, t: TaskId, ids: seq<AttemptId>) returns (item: Option<StuckAttempt>)
    requires KeysOk(db) && t in db.tasks
    requires forall a :: a in db.attempts <==> a in ids
    ensures item.Some? <==> Listed(db, t)
    ensures item.Some? ==> item.value.task == t && ItemOk(db, item.value)
  {
    if !Active(db.tasks[t]) {
      return None;
    }
    var latest, _ := LatestAttempt(db.attempts, ids, t);
    var lease := if latest.None? then None else db.attempts[latest.value].expires;
    if latest.Some? {
      LatestDecides(db, t, latest.value);
    }
    return if lease.None? || lease.value < db.now then Some(StuckAttempt(t, db.tasks[t], lease)) else None;
  }

  /** Lists, in the order of the query, exactly the tasks it asks for. */
  method StuckLeases(db: Db, order: seq<TaskId>, ids: seq<AttemptId>) returns (out: seq<StuckAttempt>)
    requires KeysOk(db)
    requires forall t :: t in db.tasks <==> t in order
    requires forall a :: a in db.attempts <==> a in ids
    ensures TaskIds(out) == Filter(order, t => Listed(db, t))
    ensures forall t :: t in TaskIds(out) <==>
      && t in db.tasks && (db.tasks[t] == Running || db.tasks[t] == Verifying)
      && forall a :: Latest(db.attempts, t, a) ==>
           db.attempts[a].expires.None? || db.attempts[a].expires.value < db.now
    ensures forall item :: item in out ==> ItemOk(db, item)
  {
    out := [];
    for i := 0 to |order|
      invariant TaskIds(out) == Filter(order[..i], t => Listed(db, t))
      invariant forall t :: t in TaskIds(out) <==> t in order[..i] && Listed(db, t)
      invariant forall item :: item in out ==> ItemOk(db, item)
    {
      assert order[..i + 1][..i] == order[..i];
      var t := order[i];
      assert t in order;
      var item := StuckAt(db, t, ids);
      if item.Some? {
        assert TaskIds(out + [item.value]) == TaskIds(out) + [t];
        out := out + [item.value];
      }
    }
    assert order[..|order|] == order;
  }
}
