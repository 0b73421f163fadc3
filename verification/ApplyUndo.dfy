/** Applying a task's result and undoing it, over a git of commits, merges and inverse patches
    (internal/worker/apply.go, internal/git/apply.go, internal/store/event.go:161-238). */
module ApplyUndo {
  import opened Common
  import opened TaskLifecycle

  type Id = nat
  type Branch = string

  // ---------- git ----------

  /** present: the tree holds the task's change. ancestors includes the commit itself. */
  datatype Commit = Commit(parents: seq<Id>, ancestors: set<Id>, present: bool)

  /** The person's repository: head is the checked-out branch, None when it is detached. */
  datatype Repo = Repo(commits: map<Id, Commit>, branches: map<Branch, Id>, head: Option<Branch>, dirty: bool)

  datatype Failure =
    | NotSucceeded | NoChange | DetachedHead | Uncommitted | Conflict | NotAMerge | IsAMerge
    | AlreadyApplied | NotApplied | WrongBranch | NothingToApply | NotRecorded

  predicate OnBranch(repo: Repo) {
    repo.head.Some? && repo.head.value in repo.branches && repo.branches[repo.head.value] in repo.commits
  }

  function HeadId(repo: Repo): Id
    requires OnBranch(repo)
  {
    repo.branches[repo.head.value]
  }

  function Head(repo: Repo): Commit
    requires OnBranch(repo)
  {
    repo.commits[HeadId(repo)]
  }

  /** A new commit, and the checked-out branch moved to it. */
  function Committed(repo: Repo, next: Id, c: Commit): Repo
    requires OnBranch(repo)
  {
    repo.(commits := repo.commits[next := c], branches := repo.branches[repo.head.value := next])
  }

  /** git merge --no-ff: nothing when the branch already contains the commit, and otherwise a merge
      commit whose tree holds the change if either side does; a conflict changes nothing. */
  function MergeNoFF(repo: Repo, w: Id, next: Id, clean: bool): (Repo, Result<Id, Failure>)
    requires OnBranch(repo) && w in repo.commits
  {
    var h, c := Head(repo), repo.commits[w];
    if w in h.ancestors then (repo, Ok(HeadId(repo)))
    else if !clean then (repo, Err(Conflict))
    else (Committed(repo, next, Commit([HeadId(repo), w], h.ancestors + c.ancestors + {next}, h.present || c.present)),
          Ok(next))
  }

  /** git revert: the inverse of what the commit did to its parent, or to the one -m names. It needs -m
      exactly for a merge, and fails, changing nothing, where the inverse patch does not fit the tree. */
  function Revert(repo: Repo, id: Id, mainline: nat, next: Id, clean: bool): (Repo, Result<Id, Failure>)
    requires OnBranch(repo) && id in repo.commits && repo.commits[id].parents != []
    requires forall p :: p in repo.commits[id].parents ==> p in repo.commits
  {
    var h, c := Head(repo), repo.commits[id];
    if mainline == 0 && |c.parents| > 1 then (repo, Err(IsAMerge))
    else if mainline > 0 && (|c.parents| == 1 || mainline > |c.parents|) then (repo, Err(NotAMerge))
    else
      var before := repo.commits[c.parents[if mainline == 0 then 0 else mainline - 1]].present;
      if !clean || (before != c.present && h.present != c.present) then (repo, Err(Conflict))
      else (Committed(repo, next, Commit([HeadId(repo)], h.ancestors + {next},
                                          if before == c.present then h.present else before)),
            Ok(next))
  }

  // ---------- records ----------

  datatype Record =
    | Applied(into: Branch, commit: Id, reapplied: bool)
    | Undone(into: Branch, commit: Id, undid: Id)

  /** The task's history; None is an event of any other type. */
  type History = seq<Option<Record>>

  const DEFAULT_EVENT_LIMIT := 200

  /** The index of the newest record. */
  function NewestIndex(events: History): (r: Option<nat>)
    ensures r.Some? ==> r.value < |events| && events[r.value].Some?
  {
    if events == [] then None
    else if events[|events| - 1].Some? then Some(|events| - 1)
    else NewestIndex(events[..|events| - 1])
  }

  /** What store.ApplyState reads: the newest record of the whole history. */
  function Newest(events: History): Option<Record> {
    if NewestIndex(events).Some? then events[NewestIndex(events).value] else None
  }

  /** What the worker lists: the oldest events, up to the default limit. */
  function Listed(events: History): History { events[..Min(|events|, DEFAULT_EVENT_LIMIT)] }

  /** The worker's backward loop over the events it listed. */
  method ApplyState(events: History) returns (applied: Option<Record>, undone: Option<Record>)
    ensures applied.Some? ==> applied == Newest(events) && applied.value.Applied?
    ensures undone.Some? ==> undone == Newest(events) && undone.value.Undone?
    ensures applied.None? && undone.None? <==> Newest(events).None?
  {
    var i := |events| - 1;
    assert events[..i + 1] == events;
    while i >= 0
      invariant -1 <= i < |events|
      invariant NewestIndex(events) == NewestIndex(events[..i + 1])
    {
      assert events[..i + 1][..i] == events[..i];
      if events[i].Some? {
        if events[i].value.Applied? {
          return events[i], None;
        }
        return None, events[i];
      }
      i := i - 1;
    }
    return None, None;
  }

  lemma {:induction false} NewestIndexIs(events: History, k: nat)
    requires k < |events| && events[k].Some? && forall j :: k < j < |events| ==> events[j].None?
    ensures NewestIndex(events) == Some(k)
  {
    if k < |events| - 1 {
      NewestIndexIs(events[..|events| - 1], k);
    }
  }

  lemma {:induction false} NoneNewest(events: History)
    requires forall j :: 0 <= j < |events| ==> events[j].None?
    ensures NewestIndex(events).None?
  {
    if events != [] {
      NoneNewest(events[..|events| - 1]);
    }
  }

  lemma {:induction false} NewestIsLast(events: History)
    ensures NewestIndex(events).None? ==> forall j :: 0 <= j < |events| ==> events[j].None?
    ensures NewestIndex(events).Some? ==> forall j :: NewestIndex(events).value < j < |events| ==> events[j].None?
  {
    if events != [] && events[|events| - 1].None? {
      NewestIsLast(events[..|events| - 1]);
    }
  }

  /** The worker and the store read the same record exactly when the history holds none past the
      worker's limit. */
  lemma SameRecordIff(events: History)
    ensures NewestIndex(Listed(events)) == NewestIndex(events)
       <==> forall j :: 200 <= j < |events| ==> events[j].None?
  {
    var shown := Listed(events);
    NewestIsLast(events);
    NewestIsLast(shown);
    if forall j :: DEFAULT_EVENT_LIMIT <= j < |events| ==> events[j].None? {
      if NewestIndex(shown).Some? {
        var k := NewestIndex(shown).value;
        assert forall j :: k < j < |shown| ==> events[j] == shown[j];
        NewestIndexIs(events, k);
      } else {
        assert forall j :: 0 <= j < |shown| ==> events[j] == shown[j];
        NoneNewest(events);
      }
    }
  }

  // ---------- the calls ----------

  /** status and work (the delivered branch's head commit, None when nothing changed) are the
      task's; they do not change once it has succeeded. */
  datatype State = State(repo: Repo, events: History, status: Status, work: Option<Id>)

  /** What the outside decides about one call: whether git can combine the changes, the id of the
      commit it would make, and whether the record's transaction commits. */
  datatype Outside = Outside(clean: bool, next: Id, recorded: bool)

  /** What neither direction can work with. */
  function Refusal(s: State): Option<Failure> {
    if s.status != Succeeded then Some(NotSucceeded)
    else if s.work.None? then Some(NoChange)
    else if s.repo.head.None? then Some(DetachedHead)
    else if s.repo.dirty then Some(Uncommitted)
    else None
  }

  function Recorded(s: State, repo: Repo, r: Record, o: Outside): (State, Result<Record, Failure>) {
    if o.recorded then (s.(repo := repo, events := s.events + [Some(r)]), Ok(r))
    else (s.(repo := repo), Err(NotRecorded))
  }

  function AfterApply(s: State, o: Outside): (State, Result<Record, Failure>)
    requires GitOk(s)
  {
    if Refusal(s).Some? then (s, Err(Refusal(s).value))
    else
      var last := Newest(Listed(s.events));
      if last.Some? && last.value.Applied? then (s, Err(AlreadyApplied))
      else
        var into := s.repo.head.value;
        var again := last.Some? && last.value.into == into;
        var (repo, commit) :=
          if again then Revert(s.repo, last.value.commit, 0, o.next, o.clean)
          else MergeNoFF(s.repo, s.work.value, o.next, o.clean);
        if commit.Err? then (s, Err(commit.error))
        else if commit.value == HeadId(s.repo) then (s.(repo := repo), Err(NothingToApply))
        else Recorded(s, repo, Applied(into, commit.value, again), o)
  }

  function AfterUndo(s: State, o: Outside): (State, Result<Record, Failure>)
    requires GitOk(s)
  {
    if Refusal(s).Some? then (s, Err(Refusal(s).value))
    else
      var last := Newest(Listed(s.events));
      if last.None? || last.value.Undone? then (s, Err(NotApplied))
      else if s.repo.head.value != last.value.into then (s, Err(WrongBranch))
      else
        var (repo, commit) :=
          Revert(s.repo, last.value.commit, if last.value.reapplied then 0 else 1, o.next, o.clean);
        if commit.Err? then (s, Err(commit.error))
        else Recorded(s, repo, Undone(s.repo.head.value, commit.value, last.value.commit), o)
  }

  // ---------- well-formed repositories ----------

  predicate CommitOk(commits: map<Id, Commit>, id: Id)
    requires id in commits
  {
    && id in commits[id].ancestors
    && (forall p :: p in commits[id].parents ==> p in commits)
  }

  /** Commits refer to commits, branches too, and a record names a commit with a parent. */
  predicate GitOk(s: State) {
    && (forall id :: id in s.repo.commits ==> CommitOk(s.repo.commits, id))
    && (forall b :: b in s.repo.branches ==> s.repo.branches[b] in s.repo.commits)
    && (s.repo.head.Some? ==> s.repo.head.value in s.repo.branches)
    && (s.work.Some? ==> s.work.value in s.repo.commits)
    && (forall i :: 0 <= i < |s.events| && s.events[i].Some? ==> RecordOk(s.repo, s.events[i].value))
  }

  predicate RecordOk(repo: Repo, r: Record) {
    r.into in repo.branches && r.commit in repo.commits && repo.commits[r.commit].parents != []
  }

  // ---------- one apply or undo ----------

  predicate FreshId(s: State, next: Id) { next !in s.repo.commits }

  /** A commit that puts the change on its first parent's tree (there), or takes it off. */
  predicate Turns(repo: Repo, id: Id, there: bool) {
    && id in repo.commits && repo.commits[id].parents != [] && repo.commits[id].parents[0] in repo.commits
    && repo.commits[id].present == there && repo.commits[repo.commits[id].parents[0]].present == !there
  }

  /** The newest record tells the truth about the branch it names: the change is there exactly if
      the record is an apply; the commit it names made it so, and is a merge unless it is a revert. */
  predicate Truthful(s: State, r: Record) {
    && r.into in s.repo.branches && s.repo.branches[r.into] in s.repo.commits
    && s.work.Some? && s.work.value in s.repo.commits[s.repo.branches[r.into]].ancestors
    && s.repo.commits[s.repo.branches[r.into]].present == r.Applied?
    && Turns(s.repo, r.commit, r.Applied?)
    && |s.repo.commits[r.commit].parents| == if r.Applied? && !r.reapplied then 2 else 1
  }

  /** Records alternate, starting with an apply. */
  predicate Alternating(events: History) {
    forall i :: 0 <= i < |events| && events[i].Some? ==>
      events[i].value.Applied? == !PrecededByApply(events[..i])
  }

  predicate PrecededByApply(events: History) { Newest(events).Some? && Newest(events).value.Applied? }

  /** A tree can only hold the change if its history holds the delivered commit, which does. */
  predicate ChangeComesFromWork(s: State) {
    s.work.Some? ==>
      && s.work.value in s.repo.commits && s.repo.commits[s.work.value].present
      && forall id :: id in s.repo.commits && s.repo.commits[id].present ==> s.work.value in s.repo.commits[id].ancestors
  }

  predicate Consistent(s: State) {
    && GitOk(s) && ChangeComesFromWork(s) && Alternating(s.events)
    && (Newest(s.events).Some? ==> Truthful(s, Newest(s.events).value))
  }

  lemma AppendRecord(events: History, r: Record)
    requires Alternating(events) && r.Applied? == !PrecededByApply(events)
    ensures Alternating(events + [Some(r)]) && Newest(events + [Some(r)]) == Some(r)
  {
    var after := events + [Some(r)];
    forall i | 0 <= i < |after| && after[i].Some? ensures after[i].value.Applied? == !PrecededByApply(after[..i]) {
      if i < |events| {
        assert after[..i] == events[..i];
      } else {
        assert after[..i] == events;
      }
    }
  }

  lemma AppendOther(events: History)
    requires Alternating(events)
    ensures Alternating(events + [None]) && Newest(events + [None]) == Newest(events)
  {
    var after := events + [None];
    assert after[..|events|] == events;
    forall i | 0 <= i < |after| && after[i].Some? ensures after[i].value.Applied? == !PrecededByApply(after[..i]) {
      assert after[..i] == events[..i];
    }
  }

  lemma ListedWhole(events: History)
    requires |events| <= DEFAULT_EVENT_LIMIT
    ensures Listed(events) == events
  {
  }

  /** A new commit on the checked-out branch keeps the repository in order. */
  lemma CommitKeepsGit(s: State, next: Id, c: Commit)
    requires GitOk(s) && ChangeComesFromWork(s) && s.repo.head.Some? && FreshId(s, next)
    requires next in c.ancestors && Head(s.repo).ancestors <= c.ancestors
    requires forall p :: p in c.parents ==> p in s.repo.commits
    requires s.work.Some? && c.present ==> s.work.value in c.ancestors
    ensures GitOk(s.(repo := Committed(s.repo, next, c))) && ChangeComesFromWork(s.(repo := Committed(s.repo, next, c)))
  {
  }

  lemma ApplyIsConsistent(s: State, o: Outside)
    requires Consistent(s) && FreshId(s, o.next) && o.recorded && |s.events| <= DEFAULT_EVENT_LIMIT
    ensures Consistent(AfterApply(s, o).0)
  {
    FailureChangesNothing(s, o);
    if AfterApply(s, o).1.Ok? {
      var c := AppliedIs(s, o);
      NewRecordIsConsistent(s, o.next, c, AfterApply(s, o).1.value);
    }
  }

  /** A commit that turns the change on or off where it was not, recorded as such. */
  lemma NewRecordIsConsistent(s: State, next: Id, c: Commit, r: Record)
    requires Consistent(s) && s.repo.head.Some? && s.work.Some? && FreshId(s, next)
    requires next in c.ancestors && Head(s.repo).ancestors <= c.ancestors && s.work.value in c.ancestors
    requires c.parents != [] && c.parents[0] == HeadId(s.repo) && forall p :: p in c.parents ==> p in s.repo.commits
    requires |c.parents| == if r.Applied? && !r.reapplied then 2 else 1
    requires r.into == s.repo.head.value && r.commit == next && r.Applied? == !PrecededByApply(s.events)
    requires c.present == r.Applied? && Head(s.repo).present == !r.Applied?
    ensures Consistent(s.(repo := Committed(s.repo, next, c), events := s.events + [Some(r)]))
  {
    CommitKeepsGit(s, next, c);
    AppendRecord(s.events, r);
  }

  /** What a successful apply makes: a merge where the change was not, or a revert of its undo. */
  lemma AppliedIs(s: State, o: Outside) returns (c: Commit)
    requires Consistent(s) && FreshId(s, o.next) && AfterApply(s, o).1.Ok? && |s.events| <= DEFAULT_EVENT_LIMIT
    ensures
      var r := AfterApply(s, o).1.value;
      && AfterApply(s, o).0 == s.(repo := Committed(s.repo, o.next, c), events := s.events + [Some(r)])
      && s.repo.head == Some(r.into) && s.work.Some? && r.commit == o.next && r.Applied? && !PrecededByApply(s.events)
      && o.next in c.ancestors && Head(s.repo).ancestors <= c.ancestors && s.work.value in c.ancestors
      && c.present && !Head(s.repo).present
      && c.parents == if r.reapplied then [HeadId(s.repo)] else [HeadId(s.repo), s.work.value]
  {
    ListedWhole(s.events);
    c := AfterApply(s, o).0.repo.commits[o.next];
  }

  lemma UndoIsConsistent(s: State, o: Outside)
    requires Consistent(s) && FreshId(s, o.next) && o.recorded && |s.events| <= DEFAULT_EVENT_LIMIT
    ensures Consistent(AfterUndo(s, o).0)
  {
    FailureChangesNothing(s, o);
    if AfterUndo(s, o).1.Ok? {
      var c := UndoneIs(s, o);
      NewRecordIsConsistent(s, o.next, c, AfterUndo(s, o).1.value);
    }
  }

  /** What a successful undo makes: a revert where the change was. */
  lemma UndoneIs(s: State, o: Outside) returns (c: Commit)
    requires Consistent(s) && FreshId(s, o.next) && AfterUndo(s, o).1.Ok? && |s.events| <= DEFAULT_EVENT_LIMIT
    ensures
      var r := AfterUndo(s, o).1.value;
      && AfterUndo(s, o).0 == s.(repo := Committed(s.repo, o.next, c), events := s.events + [Some(r)])
      && s.repo.head == Some(r.into) && s.work.Some? && r.commit == o.next && r.Undone? && PrecededByApply(s.events)
      && o.next in c.ancestors && Head(s.repo).ancestors <= c.ancestors && s.work.value in c.ancestors
      && !c.present && Head(s.repo).present && c.parents == [HeadId(s.repo)]
  {
    ListedWhole(s.events);
    c := AfterUndo(s, o).0.repo.commits[o.next];
  }

  // ---------- runs ----------

  datatype Step =
    | CallApply(o: Outside)
    | CallUndo(o: Outside)
    | Checkout(head: Option<Branch>)
    | CreateBranch(branch: Branch)
    | PersonCommits(next: Id, merged: Option<Id>)
    | Edit(dirty: bool)
    | OtherEvent

  /** What a person may do between calls: anything that does not itself bring the change onto a
      branch or take it off. A call's record is written, and the task's history is within the limit. */
  predicate Allowed(s: State, step: Step)
    requires GitOk(s)
  {
    match step
    case CallApply(o) => FreshId(s, o.next) && o.recorded && |s.events| <= DEFAULT_EVENT_LIMIT
    case CallUndo(o) => FreshId(s, o.next) && o.recorded && |s.events| <= DEFAULT_EVENT_LIMIT
    case Checkout(b) => b.Some? ==> b.value in s.repo.branches
    case CreateBranch(b) => s.repo.head.Some? && b !in s.repo.branches
    case PersonCommits(next, merged) =>
      && s.repo.head.Some? && FreshId(s, next)
      && (merged.Some? ==> merged.value in s.repo.commits && s.repo.commits[merged.value].present == Head(s.repo).present)
    case Edit(_) => true
    case OtherEvent => true
  }

  function Do(s: State, step: Step): State
    requires GitOk(s) && Allowed(s, step)
  {
    match step
    case CallApply(o) => AfterApply(s, o).0
    case CallUndo(o) => AfterUndo(s, o).0
    case Checkout(b) => s.(repo := s.repo.(head := b))
    case CreateBranch(b) => s.(repo := s.repo.(branches := s.repo.branches[b := HeadId(s.repo)]))
    case PersonCommits(next, merged) => s.(repo := Committed(s.repo, next, PersonCommit(s.repo, next, merged)))
    case Edit(dirty) => s.(repo := s.repo.(dirty := dirty))
    case OtherEvent => s.(events := s.events + [None])
  }

  function PersonCommit(repo: Repo, next: Id, merged: Option<Id>): Commit
    requires OnBranch(repo) && (merged.Some? ==> merged.value in repo.commits)
  {
    if merged.None? then Commit([HeadId(repo)], Head(repo).ancestors + {next}, Head(repo).present)
    else Commit([HeadId(repo), merged.value], Head(repo).ancestors + repo.commits[merged.value].ancestors + {next},
                Head(repo).present)
  }

  lemma StepIsConsistent(s: State, step: Step)
    requires Consistent(s) && Allowed(s, step)
    ensures Consistent(Do(s, step))
  {
    match step
    case CallApply(o) => ApplyIsConsistent(s, o);
    case CallUndo(o) => UndoIsConsistent(s, o);
    case PersonCommits(next, merged) => CommitKeepsGit(s, next, PersonCommit(s.repo, next, merged));
    case OtherEvent => AppendOther(s.events);
    case _ =>
  }

  predicate CanRun(s: State, steps: seq<Step>)
    decreases |steps|
  {
    steps == [] || (GitOk(s) && Allowed(s, steps[0]) && CanRun(Do(s, steps[0]), steps[1..]))
  }

  function Run(s: State, steps: seq<Step>): State
    requires CanRun(s, steps)
    decreases |steps|
  {
    if steps == [] then s else Run(Do(s, steps[0]), steps[1..])
  }

  /** Whatever sequence of applies, undos and the person's own work: records alternate starting
      with an apply, and the change is on the recorded branch exactly when the newest record is an
      apply, through any chain of reverts of reverts. */
  lemma {:induction false} RunIsConsistent(s: State, steps: seq<Step>)
    requires Consistent(s) && CanRun(s, steps)
    ensures Consistent(Run(s, steps))
    decreases |steps|
  {
    if steps != [] {
      StepIsConsistent(s, steps[0]);
      RunIsConsistent(Do(s, steps[0]), steps[1..]);
    }
  }

  /** The states a task can be in before anything was applied. */
  predicate Unapplied(s: State) {
    GitOk(s) && ChangeComesFromWork(s) && forall i :: 0 <= i < |s.events| ==> s.events[i].None?
  }

  lemma RecordsTellTheTruth(s: State, steps: seq<Step>, i: nat)
    requires Unapplied(s) && CanRun(s, steps)
    ensures
      var after := Run(s, steps);
      && Alternating(after.events)
      && (i < |after.events| && after.events[i].Some? && (forall j :: i < j < |after.events| ==> after.events[j].None?) ==>
            var r := after.events[i].value;
            && r.into in after.repo.branches && after.repo.branches[r.into] in after.repo.commits
            && after.repo.commits[after.repo.branches[r.into]].present == r.Applied?)
  {
    NoneNewest(s.events);
    RunIsConsistent(s, steps);
    var after := Run(s, steps);
    if i < |after.events| && after.events[i].Some? && forall j :: i < j < |after.events| ==> after.events[j].None? {
      NewestIndexIs(after.events, i);
    }
  }

  // ---------- what a call achieves ----------

  /** With the recorded branch checked out and clean, undo works whenever git can combine the
      trees: -m is given exactly when needed, and the change is gone. */
  lemma UndoWorks(s: State, o: Outside)
    requires Consistent(s) && FreshId(s, o.next) && o.recorded && o.clean && |s.events| <= DEFAULT_EVENT_LIMIT
    requires s.status == Succeeded && !s.repo.dirty && Newest(s.events).Some? && Newest(s.events).value.Applied?
    requires s.repo.head == Some(Newest(s.events).value.into)
    ensures
      var (after, r) := AfterUndo(s, o);
      && r == Ok(Undone(s.repo.head.value, o.next, Newest(s.events).value.commit))
      && GitOk(after) && !Head(after.repo).present && after.repo.head == s.repo.head
    ensures
      var r := Newest(s.events).value;
      Revert(s.repo, r.commit, if r.reapplied then 1 else 0, o.next, o.clean)
      == (s.repo, Err(if r.reapplied then NotAMerge else IsAMerge))
  {
    ListedWhole(s.events);
    UndoIsConsistent(s, o);
  }

  /** After an undo, applying again brings the change back by reverting the revert; merging the
      branch a second time would have done nothing. */
  lemma ReapplyWorks(s: State, o: Outside)
    requires Consistent(s) && FreshId(s, o.next) && o.recorded && o.clean && |s.events| <= DEFAULT_EVENT_LIMIT
    requires s.status == Succeeded && !s.repo.dirty && Newest(s.events).Some? && Newest(s.events).value.Undone?
    requires s.repo.head == Some(Newest(s.events).value.into)
    ensures
      var (after, r) := AfterApply(s, o);
      && r == Ok(Applied(s.repo.head.value, o.next, true))
      && GitOk(after) && Head(after.repo).present && after.repo.head == s.repo.head
    ensures MergeNoFF(s.repo, s.work.value, o.next, o.clean) == (s.repo, Ok(HeadId(s.repo)))
  {
    ListedWhole(s.events);
    ApplyIsConsistent(s, o);
  }

  /** A call that fails has changed nothing, but for one that could not write its record: that one
      has changed the branch and not the history. */
  lemma FailureChangesNothing(s: State, o: Outside)
    requires GitOk(s) && FreshId(s, o.next)
    ensures AfterApply(s, o).1.Err? && AfterApply(s, o).1.error != NotRecorded ==> AfterApply(s, o).0 == s
    ensures AfterUndo(s, o).1.Err? && AfterUndo(s, o).1.error != NotRecorded ==> AfterUndo(s, o).0 == s
    ensures AfterApply(s, o).1 == Err(NotRecorded) || AfterUndo(s, o).1 == Err(NotRecorded) ==> !o.recorded
    ensures AfterApply(s, o).1.Ok? ==> AfterApply(s, o).0.events == s.events + [Some(AfterApply(s, o).1.value)]
    ensures AfterUndo(s, o).1.Ok? ==> AfterUndo(s, o).0.events == s.events + [Some(AfterUndo(s, o).1.value)]
  {
  }

  /** A call's answer says exactly what is missing: a SUCCEEDED task, a delivered commit, a checked-out
      branch, a clean checkout. Where any of them is, the call changes nothing. */
  lemma CallsRefuse(s: State, o: Outside, undo: bool)
    requires GitOk(s)
    ensures
      var (after, r) := if undo then AfterUndo(s, o) else AfterApply(s, o);
      && (r == Err(NotSucceeded) <==> s.status != Succeeded)
      && (r == Err(NoChange) <==> s.status == Succeeded && s.work.None?)
      && (r == Err(DetachedHead) <==> s.status == Succeeded && s.work.Some? && s.repo.head.None?)
      && (r == Err(Uncommitted) <==> s.status == Succeeded && s.work.Some? && s.repo.head.Some? && s.repo.dirty)
      && (s.status != Succeeded || s.work.None? || s.repo.head.None? || s.repo.dirty ==> after == s && r.Err?)
  {
  }

  /** Where git cannot combine the changes, neither call changes anything. */
  lemma NoCleanNoChange(s: State, o: Outside)
    requires GitOk(s) && FreshId(s, o.next) && !o.clean
    ensures AfterApply(s, o).0 == s && AfterApply(s, o).1.Err?
    ensures AfterUndo(s, o).0 == s && AfterUndo(s, o).1.Err?
  {
  }

  /** The calls of someone who applies and undoes by turns. */
  function ByTurns(applied: bool, outs: seq<Outside>): seq<Step>
    decreases |outs|
  {
    if outs == [] then []
    else [if applied then CallUndo(outs[0]) else CallApply(outs[0])] + ByTurns(!applied, outs[1..])
  }

  /** The ids git will give are new, and it can combine what it is asked to. */
  predicate Willing(s: State, outs: seq<Outside>) {
    && (forall i :: 0 <= i < |outs| ==> FreshId(s, outs[i].next) && outs[i].clean && outs[i].recorded)
    && (forall i, j :: 0 <= i < j < |outs| ==> outs[i].next != outs[j].next)
  }

  /** The checked-out branch is the one the newest record names, or nothing was applied and it does not
      contain the delivered commit. */
  predicate OnItsBranch(s: State) {
    && s.status == Succeeded && s.work.Some? && s.repo.head.Some? && !s.repo.dirty && GitOk(s)
    && (if Newest(s.events).Some? then Newest(s.events).value.into == s.repo.head.value
        else s.work.value !in Head(s.repo).ancestors)
  }

  /** A result can be applied and undone by turns on one branch any number of times, within the limit: every
      call can be made and succeeds, and the change is there after each apply and gone after each undo. */
  lemma {:induction false} BackAndForth(s: State, outs: seq<Outside>)
    requires Consistent(s) && OnItsBranch(s) && Willing(s, outs) && |s.events| + |outs| <= DEFAULT_EVENT_LIMIT
    ensures CanRun(s, ByTurns(PrecededByApply(s.events), outs))
    ensures CameThrough(s, outs, Run(s, ByTurns(PrecededByApply(s.events), outs)))
    decreases |outs|
  {
    if outs != [] {
      var step := if PrecededByApply(s.events) then CallUndo(outs[0]) else CallApply(outs[0]);
      TurnDoes(s, outs);
      var t := Do(s, step);
      BackAndForth(t, outs[1..]);
      OneMoreTurn(s, step, outs);
      OneMoreThrough(s, t, outs, Run(t, ByTurns(PrecededByApply(t.events), outs[1..])));
    }
  }

  /** Every call has been recorded, and what the last one says of the change is true. */
  predicate CameThrough(s: State, outs: seq<Outside>, after: State) {
    && |after.events| == |s.events| + |outs| && Consistent(after) && OnItsBranch(after)
    && (outs != [] ==> Head(after.repo).present == PrecededByApply(after.events)
                       == (PrecededByApply(s.events) == (|outs| % 2 == 0)))
  }

  lemma OneMoreThrough(s: State, t: State, outs: seq<Outside>, after: State)
    requires outs != [] && CameThrough(t, outs[1..], after) && |t.events| == |s.events| + 1 && OnItsBranch(t)
    requires PrecededByApply(t.events) == !PrecededByApply(s.events) == Head(t.repo).present
    requires |outs| == 1 ==> after == t
    ensures CameThrough(s, outs, after)
  {
    Parity(PrecededByApply(s.events), |outs|);
  }

  lemma OneMoreTurn(s: State, step: Step, outs: seq<Outside>)
    requires outs != [] && step == (if PrecededByApply(s.events) then CallUndo(outs[0]) else CallApply(outs[0]))
    requires GitOk(s) && Allowed(s, step) && PrecededByApply(Do(s, step).events) == !PrecededByApply(s.events)
    requires CanRun(Do(s, step), ByTurns(!PrecededByApply(s.events), outs[1..]))
    ensures CanRun(s, ByTurns(PrecededByApply(s.events), outs))
    ensures Run(s, ByTurns(PrecededByApply(s.events), outs)) == Run(Do(s, step), ByTurns(!PrecededByApply(s.events), outs[1..]))
  {
    RunNext(s, step, ByTurns(!PrecededByApply(s.events), outs[1..]));
  }

  lemma Parity(applied: bool, n: nat)
    requires n > 0
    ensures (applied == (n % 2 == 0)) == (!applied == ((n - 1) % 2 == 0))
  {
  }

  lemma RunNext(s: State, step: Step, rest: seq<Step>)
    requires GitOk(s) && Allowed(s, step) && CanRun(Do(s, step), rest)
    ensures CanRun(s, [step] + rest) && Run(s, [step] + rest) == Run(Do(s, step), rest)
  {
    assert ([step] + rest)[1..] == rest;
  }

  lemma TurnDoes(s: State, outs: seq<Outside>)
    requires Consistent(s) && OnItsBranch(s) && outs != [] && Willing(s, outs) && |s.events| < DEFAULT_EVENT_LIMIT
    ensures
      var step := if PrecededByApply(s.events) then CallUndo(outs[0]) else CallApply(outs[0]);
      && Allowed(s, step)
      && var t := Do(s, step);
         && Consistent(t) && OnItsBranch(t) && Willing(t, outs[1..]) && |t.events| == |s.events| + 1
         && PrecededByApply(t.events) == !PrecededByApply(s.events) == Head(t.repo).present
  {
    if PrecededByApply(s.events) {
      UndoTurn(s, outs[0]);
    } else {
      ApplyTurn(s, outs[0]);
    }
  }

  /** What a turn keeps and what it changes. */
  predicate TurnOk(s: State, t: State, o: Outside) {
    && Consistent(t) && OnItsBranch(t) && |t.events| == |s.events| + 1
    && PrecededByApply(t.events) == !PrecededByApply(s.events) == Head(t.repo).present
    && forall id :: id in t.repo.commits ==> id in s.repo.commits || id == o.next
  }

  lemma UndoTurn(s: State, o: Outside)
    requires Consistent(s) && OnItsBranch(s) && |s.events| < DEFAULT_EVENT_LIMIT && PrecededByApply(s.events)
    requires FreshId(s, o.next) && o.clean && o.recorded
    ensures TurnOk(s, AfterUndo(s, o).0, o)
  {
    UndoWorksIff(s, o);
    UndoIsConsistent(s, o);
    var c := UndoneIs(s, o);
    AppendRecord(s.events, AfterUndo(s, o).1.value);
  }

  lemma ApplyTurn(s: State, o: Outside)
    requires Consistent(s) && OnItsBranch(s) && |s.events| < DEFAULT_EVENT_LIMIT && !PrecededByApply(s.events)
    requires FreshId(s, o.next) && o.clean && o.recorded
    ensures TurnOk(s, AfterApply(s, o).0, o)
  {
    ApplyWorksIff(s, o);
    ApplyIsConsistent(s, o);
    var c := AppliedIs(s, o);
    AppendRecord(s.events, AfterApply(s, o).1.value);
  }

  // ---------- where the guarantees end ----------

  /** An apply succeeds exactly if the task has succeeded with a change, a branch is checked out clean,
      the newest record is not an apply, and either it is this branch's undo, or the branch does not
      contain the delivered commit yet. */
  lemma ApplyWorksIff(s: State, o: Outside)
    requires Consistent(s) && FreshId(s, o.next) && o.recorded && o.clean && |s.events| <= DEFAULT_EVENT_LIMIT
    ensures AfterApply(s, o).1.Ok? <==>
      && s.status == Succeeded && s.work.Some? && s.repo.head.Some? && !s.repo.dirty
      && !PrecededByApply(s.events)
      && ((Newest(s.events).Some? && Newest(s.events).value.into == s.repo.head.value)
          || s.work.value !in Head(s.repo).ancestors)
    ensures AfterApply(s, o).1.Err? ==> AfterApply(s, o).0 == s
    ensures AfterApply(s, o).1.Err? && s.status == Succeeded && s.work.Some? && s.repo.head.Some? && !s.repo.dirty ==>
      AfterApply(s, o).1 == Err(if PrecededByApply(s.events) then AlreadyApplied else NothingToApply)
  {
    ListedWhole(s.events);
  }

  /** An undo succeeds exactly if the newest record is an apply to the branch that is checked out clean. */
  lemma UndoWorksIff(s: State, o: Outside)
    requires Consistent(s) && FreshId(s, o.next) && o.recorded && o.clean && |s.events| <= DEFAULT_EVENT_LIMIT
    ensures AfterUndo(s, o).1.Ok? <==>
      && s.status == Succeeded && s.work.Some? && s.repo.head.Some? && !s.repo.dirty
      && PrecededByApply(s.events) && Newest(s.events).value.into == s.repo.head.value
    ensures AfterUndo(s, o).1.Err? ==> AfterUndo(s, o).0 == s
    ensures AfterUndo(s, o).1.Err? && s.status == Succeeded && s.work.Some? && s.repo.head.Some? && !s.repo.dirty ==>
      AfterUndo(s, o).1 == Err(if PrecededByApply(s.events) then WrongBranch else NotApplied)
  {
    ListedWhole(s.events);
  }

  /** Where that rule leaves a person without the change: once it has been undone on one branch, it
      cannot be applied to another that contains the delivered commit, though it was undone there
      before. */
  lemma UndoneElsewhere(s: State, o: Outside, a: Branch, p: Outside)
    requires Consistent(s) && FreshId(s, o.next) && AfterUndo(s, o).1.Ok? && |s.events| < DEFAULT_EVENT_LIMIT
    requires a in s.repo.branches && Some(a) != s.repo.head
    requires s.work.Some? && s.work.value in s.repo.commits[s.repo.branches[a]].ancestors
    requires FreshId(AfterUndo(s, o).0, p.next) && p.clean && p.recorded
    ensures
      var back := AfterUndo(s, o).0.(repo := AfterUndo(s, o).0.repo.(head := Some(a)));
      GitOk(AfterUndo(s, o).0) && Allowed(AfterUndo(s, o).0, Checkout(Some(a))) && Do(AfterUndo(s, o).0, Checkout(Some(a))) == back
      && GitOk(back) && AfterApply(back, p) == (back, Err(NothingToApply))
  {
    var c := UndoneIs(s, o);
    NewRecordIsConsistent(s, o.next, c, AfterUndo(s, o).1.value);
    AppendRecord(s.events, AfterUndo(s, o).1.value);
    var undone := AfterUndo(s, o).0;
    StepIsConsistent(undone, Checkout(Some(a)));
    ApplyWorksIff(undone.(repo := undone.repo.(head := Some(a))), p);
  }

  // ---------- a record that is lost ----------

  /** What follows when a call has changed the branch but its record was not committed: a merge can
      be neither applied nor undone, */
  lemma LostMerge(s: State, o: Outside, p: Outside)
    requires Consistent(s) && FreshId(s, o.next) && |s.events| <= DEFAULT_EVENT_LIMIT
    requires AfterApply(s, o).1 == Err(NotRecorded)
    requires Newest(s.events).None? || Newest(s.events).value.into != s.repo.head.value
    ensures
      var after := AfterApply(s, o).0;
      && GitOk(after) && Head(after.repo).present
      && AfterApply(after, p) == (after, Err(NothingToApply)) && AfterUndo(after, p) == (after, Err(NotApplied))
  {
    ListedWhole(s.events);
    CommitKeepsGit(s, o.next, AfterApply(s, o).0.repo.commits[o.next]);
  }

  /** a revert of the revert neither, */
  lemma LostReapply(s: State, o: Outside, p: Outside)
    requires Consistent(s) && FreshId(s, o.next) && |s.events| <= DEFAULT_EVENT_LIMIT
    requires AfterApply(s, o).1 == Err(NotRecorded)
    requires Newest(s.events).Some? && Newest(s.events).value.into == s.repo.head.value
    ensures
      var after := AfterApply(s, o).0;
      && GitOk(after) && Head(after.repo).present && !Consistent(after)
      && AfterApply(after, p) == (after, Err(Conflict)) && AfterUndo(after, p) == (after, Err(NotApplied))
  {
    ListedWhole(s.events);
    CommitKeepsGit(s, o.next, AfterApply(s, o).0.repo.commits[o.next]);
  }

  /** and so for an undo. */
  lemma LostUndo(s: State, o: Outside, p: Outside)
    requires Consistent(s) && FreshId(s, o.next) && |s.events| <= DEFAULT_EVENT_LIMIT
    requires AfterUndo(s, o).1 == Err(NotRecorded)
    ensures
      var after := AfterUndo(s, o).0;
      && GitOk(after) && !Head(after.repo).present && !Consistent(after)
      && AfterApply(after, p) == (after, Err(AlreadyApplied)) && AfterUndo(after, p) == (after, Err(Conflict))
  {
    ListedWhole(s.events);
    CommitKeepsGit(s, o.next, AfterUndo(s, o).0.repo.commits[o.next]);
  }

  /** One of the two calls succeeds. */
  predicate GoesOn(s: State, p: Outside)
    requires GitOk(s)
  {
    AfterApply(s, p).1.Ok? || AfterUndo(s, p).1.Ok?
  }

  /** A call that has changed the branch leaves the task able to go on from there exactly if its
      record was committed. */
  lemma GoesOnIffRecorded(s: State, o: Outside, p: Outside, undo: bool)
    requires Consistent(s) && FreshId(s, o.next) && |s.events| < DEFAULT_EVENT_LIMIT
    requires (if undo then AfterUndo(s, o) else AfterApply(s, o)).0.repo != s.repo
    requires FreshId((if undo then AfterUndo(s, o) else AfterApply(s, o)).0, p.next) && p.clean && p.recorded
    ensures
      var after := (if undo then AfterUndo(s, o) else AfterApply(s, o)).0;
      GitOk(after) && (GoesOn(after, p) <==> o.recorded)
  {
    FailureChangesNothing(s, o);
    if undo {
      if o.recorded {
        var c := UndoneIs(s, o);
        NewRecordIsConsistent(s, o.next, c, AfterUndo(s, o).1.value);
        AppendRecord(s.events, AfterUndo(s, o).1.value);
        ReapplyWorks(AfterUndo(s, o).0, p);
      } else {
        LostUndo(s, o, p);
      }
    } else if o.recorded {
      var c := AppliedIs(s, o);
      NewRecordIsConsistent(s, o.next, c, AfterApply(s, o).1.value);
      AppendRecord(s.events, AfterApply(s, o).1.value);
      UndoWorks(AfterApply(s, o).0, p);
    } else if Newest(s.events).None? || Newest(s.events).value.into != s.repo.head.value {
      LostMerge(s, o, p);
    } else {
      LostReapply(s, o, p);
    }
  }

  /** Once a task's first 200 events hold no record, whatever is recorded later is invisible to the
      calls, though not to the store: an applied task can never be undone, and applying it again is
      not refused. */
  lemma LateRecordIsNotSeen(s: State, o: Outside)
    requires GitOk(s) && s.status == Succeeded && s.work.Some? && s.repo.head.Some? && !s.repo.dirty
    requires |s.events| >= DEFAULT_EVENT_LIMIT
    requires forall i :: 0 <= i < DEFAULT_EVENT_LIMIT ==> s.events[i].None?
    requires Newest(s.events).Some? && Newest(s.events).value.Applied?
    ensures AfterUndo(s, o) == (s, Err(NotApplied))
    ensures AfterApply(s, o).1 != Err(AlreadyApplied)
    ensures Head(s.repo).ancestors !! {s.work.value} && o.clean && o.recorded && FreshId(s, o.next) ==>
      AfterApply(s, o).1 == Ok(Applied(s.repo.head.value, o.next, false))
  {
    NoneNewest(Listed(s.events));
  }

  /** A successful apply can be undone exactly if its record is among the task's first 200 events. */
  lemma UndoableIffListed(s: State, o: Outside, p: Outside)
    requires Consistent(s) && FreshId(s, o.next) && AfterApply(s, o).1.Ok?
    ensures
      var after := AfterApply(s, o).0;
      && GitOk(after)
      && (FreshId(after, p.next) && p.clean && p.recorded ==>
            (AfterUndo(after, p).1.Ok? <==> |s.events| < 200))
      && (|s.events| >= 200 ==> AfterUndo(after, p) == (after, Err(NotApplied)))
  {
    if |s.events| < DEFAULT_EVENT_LIMIT {
      var c := AppliedIs(s, o);
      NewRecordIsConsistent(s, o.next, c, AfterApply(s, o).1.value);
      AppendRecord(s.events, AfterApply(s, o).1.value);
      if FreshId(AfterApply(s, o).0, p.next) && p.clean && p.recorded {
        UndoWorks(AfterApply(s, o).0, p);
      }
    } else {
      ApplyKeepsGit(s, o);
      assert Listed(AfterApply(s, o).0.events) == Listed(s.events);
    }
  }

  /** Whatever an apply's record says, the repository stays in order. */
  lemma ApplyKeepsGit(s: State, o: Outside)
    requires GitOk(s) && FreshId(s, o.next) && AfterApply(s, o).1.Ok?
    ensures GitOk(AfterApply(s, o).0)
  {
    var c := AfterApply(s, o).0.repo.commits[o.next];
    assert AfterApply(s, o).0.repo == Committed(s.repo, o.next, c);
    CommitKeepsOrder(s, o.next, c);
  }

  lemma CommitKeepsOrder(s: State, next: Id, c: Commit)
    requires GitOk(s) && s.repo.head.Some? && FreshId(s, next) && next in c.ancestors
    requires forall p :: p in c.parents ==> p in s.repo.commits
    ensures GitOk(s.(repo := Committed(s.repo, next, c)))
  {
  }

  // ---------- the worker ----------

  class Worker {
    var repo: Repo
    var events: History
    const status: Status
    const work: Option<Id>

    function Now(): State
      reads this
    {
      State(repo, events, status, work)
    }

    constructor (s: State)
      ensures Now() == s
    {
      repo, events, status, work := s.repo, s.events, s.status, s.work;
    }

    method Append(r: Record, o: Outside) returns (out: Result<Record, Failure>)
      modifies this`events
      ensures events == if o.recorded then old(events) + [Some(r)] else old(events)
      ensures out == if o.recorded then Ok(r) else Err(NotRecorded)
    {
      if !o.recorded {
        return Err(NotRecorded);
      }
      events := events + [Some(r)];
      return Ok(r);
    }

    method Apply(o: Outside) returns (out: Result<Record, Failure>)
      requires GitOk(Now())
      modifies this
      ensures (Now(), out) == AfterApply(old(Now()), o)
    {
      var refusal := Refusal(Now());
      if refusal.Some? {
        return Err(refusal.value);
      }
      var applied, undone := ApplyState(Listed(events));
      if applied.Some? {
        return Err(AlreadyApplied);
      }
      var into, before := repo.head.value, HeadId(repo);
      var again := undone.Some? && undone.value.into == into;
      var git :=
        if again then Revert(repo, undone.value.commit, 0, o.next, o.clean)
        else MergeNoFF(repo, work.value, o.next, o.clean);
      if git.1.Err? {
        return Err(git.1.error);
      }
      repo := git.0;
      if git.1.value == before {
        return Err(NothingToApply);
      }
      out := Append(Applied(into, git.1.value, again), o);
    }

    method Undo(o: Outside) returns (out: Result<Record, Failure>)
      requires GitOk(Now())
      modifies this
      ensures (Now(), out) == AfterUndo(old(Now()), o)
    {
      var refusal := Refusal(Now());
      if refusal.Some? {
        return Err(refusal.value);
      }
      var applied, _ := ApplyState(Listed(events));
      if applied.None? {
        return Err(NotApplied);
      }
      if repo.head.value != applied.value.into {
        return Err(WrongBranch);
      }
      var mainline := 1;
      if applied.value.reapplied {
        mainline := 0;
      }
      var git := Revert(repo, applied.value.commit, mainline, o.next, o.clean);
      if git.1.Err? {
        return Err(git.1.error);
      }
      repo := git.0;
      out := Append(Undone(repo.head.value, git.1.value, applied.value.commit), o);
    }
  }
}
