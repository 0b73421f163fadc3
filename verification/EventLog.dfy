/** The append-only event log and its resumable reader (internal/store/event.go).

    A transaction gets a sequence number when it inserts, but its events become visible when it
    commits. A lock held from the insert to the commit keeps one task's events in order. */
module EventLog {
  import opened Common
  import opened Sorting

  type TaskId = nat
  type TxId = nat

  const DEFAULT_EVENT_LIMIT: nat := 200
  const MAX_EVENT_LIMIT: nat := 1000

  datatype Event = Event(seqNo: nat, task: TaskId, kind: nat, payload: string)

  // ---------- reading ----------

  function EffectiveLimit(limit: int): (n: nat)
    ensures 1 <= n <= MAX_EVENT_LIMIT
  {
    if limit <= 0 then DEFAULT_EVENT_LIMIT else if limit > MAX_EVENT_LIMIT then MAX_EVENT_LIMIT else limit
  }

  /** Rows a reader of one task, optionally of some event types only, is interested in. */
  datatype Topic = Topic(task: TaskId, kinds: set<nat>) {
    predicate Wants(e: Event) { e.task == task && (kinds == {} || e.kind in kinds) }
  }

  predicate Ascending(s: seq<Event>) {
    forall i, j :: 0 <= i < j < |s| ==> s[i].seqNo < s[j].seqNo
  }

  predicate BySeq(a: Event, b: Event) { a.seqNo < b.seqNo }

  /** ORDER BY seq. */
  function OrderBySeq(s: seq<Event>): seq<Event> { Sort(BySeq, s) }

  function Take(s: seq<Event>, n: nat): seq<Event> {
    if |s| <= n then s else s[..n]
  }

  /** The query: matching rows after a sequence number, in order, up to a limit. */
  function ListEvents(table: seq<Event>, topic: Topic, after: nat, limit: int): seq<Event> {
    Take(OrderBySeq(Filter(table, (e: Event) => topic.Wants(e) && e.seqNo > after)), EffectiveLimit(limit))
  }

  // ---------- the database ----------

  /** Events in the order they became visible, sequence counter, open transactions with the
      events they have inserted, and who holds each advisory lock. */
  datatype Db = Db(table: seq<Event>, nextSeq: nat, pending: map<TxId, seq<Event>>, locks: map<int, TxId>)

  /** A client that follows one topic, keeping the highest sequence number it has seen. */
  datatype Reader = Reader(topic: Topic, cursor: nat, received: seq<Event>)

  datatype State = State(db: Db, readers: map<nat, Reader>)

  const INIT := State(Db([], 1, map[], map[]), map[])

  datatype Step =
    | Begin(tx: TxId)
    | Append(tx: TxId, task: TaskId, kind: nat, payload: string)
    | Commit(tx: TxId)
    | Abort(tx: TxId)
    | Follow(reader: nat, topic: Topic)
    | Poll(reader: nat, limit: int)

  /** hashtext: any function of the task; different tasks may share a lock. */
  datatype Hash = Hash(key: TaskId -> int)

  predicate MayLock(db: Db, key: int, tx: TxId) {
    key !in db.locks || db.locks[key] == tx
  }

  predicate Enabled(h: Hash, s: State, step: Step) {
    match step
    case Begin(tx) => tx !in s.db.pending
    case Append(tx, task, _, _) => tx in s.db.pending && MayLock(s.db, h.key(task), tx)
    case Commit(tx) => tx in s.db.pending
    case Abort(tx) => tx in s.db.pending
    case Follow(r, _) => r !in s.readers
    case Poll(r, _) => r in s.readers
  }

  function Release(locks: map<int, TxId>, tx: TxId): map<int, TxId> {
    map k | k in locks && locks[k] != tx :: locks[k]
  }

  function AppendTo(h: Hash, db: Db, tx: TxId, task: TaskId, kind: nat, payload: string): Db
    requires tx in db.pending
  {
    var e := Event(db.nextSeq, task, kind, if payload == "" then "{}" else payload);
    db.(nextSeq := db.nextSeq + 1,
        pending := db.pending[tx := db.pending[tx] + [e]],
        locks := db.locks[h.key(task) := tx])
  }

  function CommitOf(db: Db, tx: TxId): Db
    requires tx in db.pending
  {
    db.(table := db.table + db.pending[tx], pending := db.pending - {tx}, locks := Release(db.locks, tx))
  }

  function AbortOf(db: Db, tx: TxId): Db {
    db.(pending := db.pending - {tx}, locks := Release(db.locks, tx))
  }

  /** A page moves the cursor to its last event; an empty page leaves it. */
  function Advance(r: Reader, page: seq<Event>): Reader {
    if page == [] then r else r.(cursor := page[|page| - 1].seqNo, received := r.received + page)
  }

  function Apply(h: Hash, s: State, step: Step): State
    requires Enabled(h, s, step)
  {
    match step
    case Begin(tx) => s.(db := s.db.(pending := s.db.pending[tx := []]))
    case Append(tx, task, kind, payload) => s.(db := AppendTo(h, s.db, tx, task, kind, payload))
    case Commit(tx) => s.(db := CommitOf(s.db, tx))
    case Abort(tx) => s.(db := AbortOf(s.db, tx))
    case Follow(r, topic) => s.(readers := s.readers[r := Reader(topic, 0, [])])
    case Poll(r, limit) =>
      var x := s.readers[r];
      s.(readers := s.readers[r := Advance(x, ListEvents(s.db.table, x.topic, x.cursor, limit))])
  }

  predicate CanRun(h: Hash, s: State, steps: seq<Step>)
    decreases |steps|
  {
    steps == [] || (Enabled(h, s, steps[0]) && CanRun(h, Apply(h, s, steps[0]), steps[1..]))
  }

  function Run(h: Hash, s: State, steps: seq<Step>): State
    requires CanRun(h, s, steps)
    decreases |steps|
  {
    if steps == [] then s else Run(h, Apply(h, s, steps[0]), steps[1..])
  }

  // ---------- the invariant ----------

  /** What the reader of a topic should hold when its cursor stands at c. */
  function UpTo(table: seq<Event>, topic: Topic, c: nat): seq<Event> {
    Filter(table, (e: Event) => topic.Wants(e) && e.seqNo <= c)
  }

  /** What is still to be read of a topic after c. */
  function After(table: seq<Event>, topic: Topic, c: nat): seq<Event> {
    Filter(table, (e: Event) => topic.Wants(e) && e.seqNo > c)
  }

  /** A topic's visible events. */
  function All(table: seq<Event>, topic: Topic): seq<Event> {
    Filter(table, (e: Event) => topic.Wants(e))
  }

  /** One task's events became visible in increasing order. */
  predicate TaskAscending(table: seq<Event>) {
    forall i, j :: 0 <= i < j < |table| && table[i].task == table[j].task ==> table[i].seqNo < table[j].seqNo
  }

  predicate PendingOk(h: Hash, db: Db, tx: TxId)
    requires tx in db.pending
  {
    var p := db.pending[tx];
    && TaskAscending(p)
    && (forall e :: e in p ==> 1 <= e.seqNo < db.nextSeq)
    && (forall e :: e in p ==> h.key(e.task) in db.locks && db.locks[h.key(e.task)] == tx)
    && (forall e, v :: e in p && v in db.table && v.task == e.task ==> v.seqNo < e.seqNo)
  }

  predicate ReaderOk(db: Db, r: Reader) {
    && r.received == UpTo(db.table, r.topic, r.cursor)
    && (r.cursor == 0 || exists e :: e in db.table && r.topic.Wants(e) && e.seqNo == r.cursor)
  }

  predicate Inv(h: Hash, s: State) {
    && s.db.nextSeq >= 1
    && TaskAscending(s.db.table)
    && (forall e :: e in s.db.table ==> 1 <= e.seqNo < s.db.nextSeq)
    && (forall tx :: tx in s.db.pending ==> PendingOk(h, s.db, tx))
    && (forall r :: r in s.readers ==> ReaderOk(s.db, s.readers[r]))
  }

  // ---------- sequence facts ----------

  lemma {:induction false} FilterAppend<T>(a: seq<T>, b: seq<T>, keep: T -> bool)
    ensures Filter(a + b, keep) == Filter(a, keep) + Filter(b, keep)
  {
    if b == [] {
      assert a + b == a;
    } else {
      var front := b[..|b| - 1];
      FilterAppend(a, front, keep);
      assert (a + b)[..|a + b| - 1] == a + front;
    }
  }

  lemma {:induction false} FilterNone<T>(s: seq<T>, keep: T -> bool)
    requires forall x :: x in s ==> !keep(x)
    ensures Filter(s, keep) == []
  {
    if s != [] {
      FilterNone(s[..|s| - 1], keep);
    }
  }

  lemma {:induction false} FilterMembers<T>(s: seq<T>, keep: T -> bool)
    ensures forall x :: x in Filter(s, keep) <==> x in s && keep(x)
  {
    if s != [] {
      var front, last := s[..|s| - 1], s[|s| - 1];
      FilterMembers(front, keep);
      assert s == front + [last];
    }
  }

  lemma {:induction false} FilterAscending(s: seq<Event>, topic: Topic, keep: Event -> bool)
    requires TaskAscending(s)
    requires forall e :: keep(e) ==> topic.Wants(e)
    ensures Ascending(Filter(s, keep))
  {
    if s != [] {
      var front, last := s[..|s| - 1], s[|s| - 1];
      FilterAscending(front, topic, keep);
      FilterMembers(front, keep);
      if keep(last) {
        var f := Filter(front, keep);
        forall i | 0 <= i < |f| ensures f[i].seqNo < last.seqNo {
          assert f[i] in front;
          var k :| 0 <= k < |front| && front[k] == f[i];
          assert s[k] == f[i];
        }
      }
    }
  }

  lemma {:induction false} OrderAscending(s: seq<Event>)
    requires Ascending(s)
    ensures OrderBySeq(s) == s
  {
    if s != [] {
      OrderAscending(s[1..]);
      assert |s| > 1 ==> s[0].seqNo < s[1].seqNo;
    }
  }

  /** Nothing before an event of an ascending topic comes after it. */
  lemma NothingLater(front: seq<Event>, last: Event, topic: Topic, c: nat)
    requires Ascending(All(front, topic) + [last]) && last.seqNo <= c
    ensures After(front, topic, c) == []
  {
    var wanted := All(front, topic);
    FilterMembers(front, (e: Event) => topic.Wants(e));
    forall x | x in front && topic.Wants(x) ensures x.seqNo <= c {
      assert x in wanted;
      var i :| 0 <= i < |wanted| && wanted[i] == x;
      assert (wanted + [last])[i] == x && (wanted + [last])[|wanted|] == last;
    }
    FilterNone(front, (e: Event) => topic.Wants(e) && e.seqNo > c);
  }

  /** What a reader has and what it has not read yet make up the topic. */
  lemma {:induction false} FilterSplit(s: seq<Event>, topic: Topic, c: nat)
    requires Ascending(All(s, topic))
    ensures All(s, topic)
         == UpTo(s, topic, c) + After(s, topic, c)
  {
    if s != [] {
      var all := All(s, topic);
      var front, last := s[..|s| - 1], s[|s| - 1];
      var before := All(front, topic);
      assert before <= all;
      FilterSplit(front, topic, c);
      if topic.Wants(last) && last.seqNo <= c {
        NothingLater(front, last, topic, c);
        assert UpTo(front, topic, c) + [] + [last] == UpTo(s, topic, c);
      }
    }
  }

  /** Up to the cursor nothing changes when events with higher numbers become visible. */
  lemma UpToExtends(table: seq<Event>, more: seq<Event>, topic: Topic, c: nat)
    requires forall e :: e in more && topic.Wants(e) ==> e.seqNo > c
    ensures UpTo(table + more, topic, c) == UpTo(table, topic, c)
  {
    var keep := (e: Event) => topic.Wants(e) && e.seqNo <= c;
    FilterAppend(table, more, keep);
    FilterNone(more, keep);
  }

  // ---------- each step keeps the invariant ----------

  lemma AppendKeepsOwn(h: Hash, db: Db, tx: TxId, task: TaskId, kind: nat, payload: string)
    requires tx in db.pending && PendingOk(h, db, tx) && MayLock(db, h.key(task), tx)
    requires db.nextSeq >= 1 && forall v :: v in db.table ==> v.seqNo < db.nextSeq
    ensures PendingOk(h, AppendTo(h, db, tx, task, kind, payload), tx)
  {
    var t := AppendTo(h, db, tx, task, kind, payload);
    var p, q := db.pending[tx], t.pending[tx];
    forall i, j | 0 <= i < j < |q| && q[i].task == q[j].task ensures q[i].seqNo < q[j].seqNo {
      assert q[i] == p[i] && p[i] in p;
    }
    forall e | e in q ensures e in p || e == q[|p|] { }
  }

  lemma AppendKeepsOther(h: Hash, db: Db, tx: TxId, task: TaskId, kind: nat, payload: string, u: TxId)
    requires tx in db.pending && u in db.pending && u != tx
    requires PendingOk(h, db, u) && MayLock(db, h.key(task), tx)
    ensures PendingOk(h, AppendTo(h, db, tx, task, kind, payload), u)
  {
  }

  lemma AppendKeeps(h: Hash, s: State, tx: TxId, task: TaskId, kind: nat, payload: string)
    requires Inv(h, s) && Enabled(h, s, Append(tx, task, kind, payload))
    ensures Inv(h, Apply(h, s, Append(tx, task, kind, payload)))
  {
    var t := AppendTo(h, s.db, tx, task, kind, payload);
    forall u | u in t.pending ensures PendingOk(h, t, u) {
      assert PendingOk(h, s.db, u);
      if u == tx {
        AppendKeepsOwn(h, s.db, tx, task, kind, payload);
      } else {
        AppendKeepsOther(h, s.db, tx, task, kind, payload, u);
      }
    }
    forall r | r in s.readers ensures ReaderOk(t, s.readers[r]) {
      assert ReaderOk(s.db, s.readers[r]);
    }
  }

  lemma BeginKeeps(h: Hash, s: State, tx: TxId)
    requires Inv(h, s) && Enabled(h, s, Begin(tx))
    ensures Inv(h, Apply(h, s, Begin(tx)))
  {
    var t := Apply(h, s, Begin(tx));
    forall u | u in t.db.pending ensures PendingOk(h, t.db, u) {
      assert u in s.db.pending ==> PendingOk(h, s.db, u);
    }
  }

  lemma AbortKeeps(h: Hash, s: State, tx: TxId)
    requires Inv(h, s) && Enabled(h, s, Abort(tx))
    ensures Inv(h, Apply(h, s, Abort(tx)))
  {
    var t := Apply(h, s, Abort(tx));
    forall u | u in t.db.pending ensures PendingOk(h, t.db, u) {
      assert PendingOk(h, s.db, u);
    }
  }

  /** Two open transactions never hold events of the same task. */
  lemma OneWriterPerTask(h: Hash, db: Db, t1: TxId, t2: TxId, e1: Event, e2: Event)
    requires t1 in db.pending && t2 in db.pending && PendingOk(h, db, t1) && PendingOk(h, db, t2)
    requires e1 in db.pending[t1] && e2 in db.pending[t2] && e1.task == e2.task
    ensures t1 == t2
  {
    assert db.locks[h.key(e1.task)] == t1;
  }

  lemma CommitKeepsReader(h: Hash, s: State, tx: TxId, r: Reader)
    requires Inv(h, s) && Enabled(h, s, Commit(tx)) && ReaderOk(s.db, r)
    ensures ReaderOk(CommitOf(s.db, tx), r)
  {
    assert PendingOk(h, s.db, tx);
    var more := s.db.pending[tx];
    forall e | e in more && r.topic.Wants(e) ensures e.seqNo > r.cursor {
      if r.cursor != 0 {
        var v :| v in s.db.table && r.topic.Wants(v) && v.seqNo == r.cursor;
        assert v.seqNo < e.seqNo;
      }
    }
    UpToExtends(s.db.table, more, r.topic, r.cursor);
    if r.cursor != 0 {
      var v :| v in s.db.table && r.topic.Wants(v) && v.seqNo == r.cursor;
      assert v in s.db.table + more;
    }
  }

  lemma CommitKeepsTable(h: Hash, s: State, tx: TxId)
    requires Inv(h, s) && Enabled(h, s, Commit(tx))
    ensures TaskAscending(s.db.table + s.db.pending[tx])
  {
    var seen, more := s.db.table, s.db.pending[tx];
    var all := seen + more;
    assert PendingOk(h, s.db, tx);
    forall i, j | 0 <= i < j < |all| && all[i].task == all[j].task
      ensures all[i].seqNo < all[j].seqNo
    {
      if j >= |seen| {
        assert all[j] == more[j - |seen|] && all[j] in more;
        if i < |seen| {
          assert all[i] in seen;
        } else {
          assert all[i] == more[i - |seen|];
        }
      }
    }
  }

  lemma CommitKeeps(h: Hash, s: State, tx: TxId)
    requires Inv(h, s) && Enabled(h, s, Commit(tx))
    ensures Inv(h, Apply(h, s, Commit(tx)))
  {
    var t := Apply(h, s, Commit(tx));
    assert PendingOk(h, s.db, tx);
    CommitKeepsTable(h, s, tx);
    forall u | u in t.db.pending ensures PendingOk(h, t.db, u) {
      assert PendingOk(h, s.db, u);
      forall e, v | e in t.db.pending[u] && v in t.db.table && v.task == e.task ensures v.seqNo < e.seqNo {
        if v in s.db.pending[tx] {
          OneWriterPerTask(h, s.db, u, tx, e, v);
        }
      }
    }
    forall r | r in t.readers ensures ReaderOk(t.db, t.readers[r]) {
      CommitKeepsReader(h, s, tx, s.readers[r]);
    }
  }

  /** A page of an ascending list ends below what it leaves out. */
  lemma PageCuts(rest: seq<Event>, n: nat)
    requires Ascending(rest) && 0 < n <= |rest|
    ensures forall e :: e in rest[..n] ==> e.seqNo <= rest[n - 1].seqNo
    ensures forall e :: e in rest[n..] ==> e.seqNo > rest[n - 1].seqNo
  {
    forall e | e in rest[n..] ensures e.seqNo > rest[n - 1].seqNo {
      var i :| 0 <= i < |rest[n..]| && rest[n..][i] == e;
      assert rest[n + i] == e;
    }
  }

  lemma QueryIs(table: seq<Event>, topic: Topic, c: nat, limit: int)
    requires TaskAscending(table)
    ensures Ascending(After(table, topic, c)) && Ascending(All(table, topic))
    ensures ListEvents(table, topic, c, limit) == Take(After(table, topic, c), EffectiveLimit(limit))
  {
    var later := (e: Event) => topic.Wants(e) && e.seqNo > c;
    FilterAscending(table, topic, later);
    FilterAscending(table, topic, (e: Event) => topic.Wants(e));
    OrderAscending(Filter(table, later));
  }

  lemma Bounds(table: seq<Event>, topic: Topic, c: nat)
    ensures forall e :: e in UpTo(table, topic, c) ==> e.seqNo <= c
    ensures forall e :: e in After(table, topic, c) ==> e.seqNo > c && topic.Wants(e) && e in table
  {
    FilterMembers(table, (e: Event) => topic.Wants(e) && e.seqNo <= c);
    FilterMembers(table, (e: Event) => topic.Wants(e) && e.seqNo > c);
  }

  /** What a page holds: events of the topic after c, in order, as many as there are up to the limit,
      which is 200 unless one is given and 1000 at most; and nothing that is left out comes before
      anything that is not. */
  lemma PageHolds(table: seq<Event>, topic: Topic, c: nat, limit: int, e: Event)
    requires TaskAscending(table)
    ensures
      var page, bound := ListEvents(table, topic, c, limit), if limit <= 0 then 200 else if limit > 1000 then 1000 else limit;
      var wanted := e in table && e.task == topic.task && (topic.kinds == {} || e.kind in topic.kinds) && e.seqNo > c;
      && Ascending(page) && |page| == Min(bound, |After(table, topic, c)|)
      && (e in page ==> wanted)
      && (wanted && e !in page ==> |page| == bound && forall x :: x in page ==> x.seqNo < e.seqNo)
  {
    QueryIs(table, topic, c, limit);
    FilterMembers(table, (x: Event) => topic.Wants(x) && x.seqNo > c);
    TakeHolds(After(table, topic, c), EffectiveLimit(limit), e);
  }

  lemma TakeHolds(rest: seq<Event>, n: nat, e: Event)
    requires Ascending(rest) && n > 0
    ensures
      var page := Take(rest, n);
      && Ascending(page) && |page| == Min(n, |rest|) && (e in page ==> e in rest)
      && (e in rest && e !in page ==> |page| == n && forall x :: x in page ==> x.seqNo < e.seqNo)
  {
    if n < |rest| {
      assert rest == rest[..n] + rest[n..];
      PageCuts(rest, n);
    }
  }

  /** Reading n more events in order is reading up to the last of them. */
  lemma ReadsUpTo(table: seq<Event>, topic: Topic, c: nat, n: nat)
    requires TaskAscending(table) && 0 < n <= |After(table, topic, c)|
    ensures var rest := After(table, topic, c);
            UpTo(table, topic, c) + rest[..n] == UpTo(table, topic, rest[n - 1].seqNo)
  {
    QueryIs(table, topic, c, 0);
    var seen, rest := UpTo(table, topic, c), After(table, topic, c);
    var next := rest[n - 1].seqNo;
    Bounds(table, topic, c);
    assert rest[n - 1] in rest;
    PageCuts(rest, n);
    FilterSplit(table, topic, c);
    FilterSplit(table, topic, next);
    Bounds(table, topic, next);
    Regroup(seen, rest, n);
    SplitUnique(All(table, topic), seen + rest[..n], rest[n..],
                UpTo(table, topic, next), After(table, topic, next), next);
  }

  lemma Regroup(a: seq<Event>, b: seq<Event>, n: nat)
    requires n <= |b|
    ensures a + b == a + b[..n] + b[n..]
  {
  }

  /** A page is what comes next: the reader's events and the page are again everything up to the
      new cursor. */
  lemma PollKeepsReader(h: Hash, db: Db, r: Reader, limit: int)
    requires TaskAscending(db.table) && ReaderOk(db, r)
    ensures ReaderOk(db, Advance(r, ListEvents(db.table, r.topic, r.cursor, limit)))
    ensures ListEvents(db.table, r.topic, r.cursor, limit)
         == Take(After(db.table, r.topic, r.cursor), EffectiveLimit(limit))
  {
    var rest := After(db.table, r.topic, r.cursor);
    QueryIs(db.table, r.topic, r.cursor, limit);
    var page := Take(rest, EffectiveLimit(limit));
    if page != [] {
      ReadsUpTo(db.table, r.topic, r.cursor, |page|);
      assert page == rest[..|page|];
      Bounds(db.table, r.topic, r.cursor);
      assert rest[|page| - 1] in rest;
    }
  }

  /** A sequence can be cut into small and large numbers in one way only. */
  lemma SplitUnique(s: seq<Event>, a1: seq<Event>, b1: seq<Event>, a2: seq<Event>, b2: seq<Event>, c: nat)
    requires s == a1 + b1 == a2 + b2
    requires forall e :: e in a1 || e in a2 ==> e.seqNo <= c
    requires forall e :: e in b1 || e in b2 ==> e.seqNo > c
    ensures a1 == a2
  {
    SmallPart(a1, b1, c);
    SmallPart(a2, b2, c);
  }

  function Small(c: nat): Event -> bool { (e: Event) => e.seqNo <= c }

  lemma SmallPart(a: seq<Event>, b: seq<Event>, c: nat)
    requires forall e :: e in a ==> e.seqNo <= c
    requires forall e :: e in b ==> e.seqNo > c
    ensures Filter(a + b, Small(c)) == a
  {
    FilterAppend(a, b, Small(c));
    FilterAll(a, Small(c));
    FilterNone(b, Small(c));
  }

  lemma {:induction false} FilterAll<T>(s: seq<T>, keep: T -> bool)
    requires forall x :: x in s ==> keep(x)
    ensures Filter(s, keep) == s
  {
    if s != [] {
      var front, last := s[..|s| - 1], s[|s| - 1];
      assert last in s;
      forall x | x in front ensures keep(x) {
        assert x in s;
      }
      FilterAll(front, keep);
      assert front + [last] == s;
    }
  }

  lemma StepKeepsInv(h: Hash, s: State, step: Step)
    requires Inv(h, s) && Enabled(h, s, step)
    ensures Inv(h, Apply(h, s, step))
  {
    match step
    case Begin(tx) => BeginKeeps(h, s, tx);
    case Append(tx, task, kind, payload) => AppendKeeps(h, s, tx, task, kind, payload);
    case Commit(tx) => CommitKeeps(h, s, tx);
    case Abort(tx) => AbortKeeps(h, s, tx);
    case Follow(r, topic) => FilterNone(s.db.table, (e: Event) => topic.Wants(e) && e.seqNo <= 0);
    case Poll(r, limit) => PollKeepsReader(h, s.db, s.readers[r], limit);
  }

  lemma {:induction false} RunKeepsInv(h: Hash, s: State, steps: seq<Step>)
    requires Inv(h, s) && CanRun(h, s, steps)
    ensures Inv(h, Run(h, s, steps))
    decreases |steps|
  {
    if steps != [] {
      StepKeepsInv(h, s, steps[0]);
      RunKeepsInv(h, Apply(h, s, steps[0]), steps[1..]);
    }
  }

  // ---------- what a reader can rely on ----------

  /** In every interleaving of transactions and readers, with any limits: one task's events become
      visible in increasing order, and every reader has received exactly the visible events of its
      topic up to its cursor, once each and in order. */
  lemma ReadersLoseNothing(h: Hash, steps: seq<Step>, r: nat)
    requires CanRun(h, INIT, steps) && r in Run(h, INIT, steps).readers
    ensures var s := Run(h, INIT, steps);
            var reader := s.readers[r];
            && TaskAscending(s.db.table)
            && reader.received == UpTo(s.db.table, reader.topic, reader.cursor)
            && Ascending(reader.received)
            && forall e :: e in s.db.table && reader.topic.Wants(e) && e.seqNo <= reader.cursor ==> e in reader.received
  {
    RunKeepsInv(h, INIT, steps);
    var s := Run(h, INIT, steps);
    var reader := s.readers[r];
    assert ReaderOk(s.db, reader);
    var keep := (e: Event) => reader.topic.Wants(e) && e.seqNo <= reader.cursor;
    FilterAscending(s.db.table, reader.topic, keep);
    FilterMembers(s.db.table, keep);
  }

  /** A poll that returns fewer events than its limit has caught up with everything visible. */
  lemma ShortPageCatchesUp(h: Hash, steps: seq<Step>, r: nat, limit: int)
    requires CanRun(h, INIT, steps) && r in Run(h, INIT, steps).readers
    ensures var s := Run(h, INIT, steps);
            var reader := s.readers[r];
            var page := ListEvents(s.db.table, reader.topic, reader.cursor, limit);
            |page| < EffectiveLimit(limit) ==>
              Advance(reader, page).received == All(s.db.table, reader.topic)
  {
    RunKeepsInv(h, INIT, steps);
    var s := Run(h, INIT, steps);
    var reader := s.readers[r];
    PollKeepsReader(h, s.db, reader, limit);
    FilterAscending(s.db.table, reader.topic, (e: Event) => reader.topic.Wants(e));
    FilterSplit(s.db.table, reader.topic, reader.cursor);
    var page := ListEvents(s.db.table, reader.topic, reader.cursor, limit);
    assert page == [] ==> reader.received + page == reader.received;
  }

  // ---------- what a reader gets in the end ----------

  /** Polls of one reader, one after the other. */
  function Polls(r: nat, limits: seq<int>): seq<Step> {
    seq(|limits|, i requires 0 <= i < |limits| => Poll(r, limits[i]))
  }

  lemma {:induction false} RunJoined(h: Hash, s: State, a: seq<Step>, b: seq<Step>)
    requires CanRun(h, s, a) && CanRun(h, Run(h, s, a), b)
    ensures CanRun(h, s, a + b) && Run(h, s, a + b) == Run(h, Run(h, s, a), b)
    decreases |a|
  {
    if a == [] {
      assert a + b == b;
    } else {
      assert (a + b)[0] == a[0] && (a + b)[1..] == a[1..] + b;
      RunJoined(h, Apply(h, s, a[0]), a[1..], b);
    }
  }

  /** Each poll of a reader with something left to read reads some of it. */
  lemma PollReads(h: Hash, s: State, r: nat, limit: int)
    requires Inv(h, s) && r in s.readers
    ensures
      var t := Apply(h, s, Poll(r, limit));
      var was, now := s.readers[r], t.readers[r];
      && Inv(h, t) && t.db == s.db && r in t.readers && now.topic == was.topic
      && |After(s.db.table, was.topic, was.cursor)|
         == |All(s.db.table, was.topic)| - |was.received|
      && |now.received| >= Min(|was.received| + 1, |All(s.db.table, was.topic)|)
  {
    StepKeepsInv(h, s, Poll(r, limit));
    var was, table := s.readers[r], s.db.table;
    assert ReaderOk(s.db, was);
    PollKeepsReader(h, s.db, was, limit);
    QueryIs(table, was.topic, was.cursor, limit);
    FilterSplit(table, was.topic, was.cursor);
  }

  lemma {:induction false} PollsReadAll(h: Hash, s: State, r: nat, limits: seq<int>)
    requires Inv(h, s) && r in s.readers
    requires |limits| >= |All(s.db.table, s.readers[r].topic)| - |s.readers[r].received|
    ensures CanRun(h, s, Polls(r, limits))
    ensures
      var t := Run(h, s, Polls(r, limits));
      t.db == s.db && r in t.readers && t.readers[r].topic == s.readers[r].topic
      && t.readers[r].received == All(s.db.table, s.readers[r].topic)
    decreases |limits|
  {
    var reader := s.readers[r];
    var all := All(s.db.table, reader.topic);
    PollReads(h, s, r, if limits == [] then 0 else limits[0]);
    if limits == [] {
      assert ReaderOk(s.db, reader);
      QueryIs(s.db.table, reader.topic, reader.cursor, 0);
      FilterSplit(s.db.table, reader.topic, reader.cursor);
      assert UpTo(s.db.table, reader.topic, reader.cursor) + [] == UpTo(s.db.table, reader.topic, reader.cursor);
    } else {
      assert Polls(r, limits)[0] == Poll(r, limits[0]) && Polls(r, limits)[1..] == Polls(r, limits[1..]);
      PollsReadAll(h, Apply(h, s, Poll(r, limits[0])), r, limits[1..]);
    }
  }

  /** Whatever has happened before, a reader that starts to follow a topic and polls once for each of its
      visible events, with any limits, has received them all, in order. */
  lemma FollowerGetsAll(h: Hash, steps: seq<Step>, r: nat, topic: Topic, limits: seq<int>)
    requires CanRun(h, INIT, steps) && r !in Run(h, INIT, steps).readers
    requires |limits| >= |All(Run(h, INIT, steps).db.table, topic)|
    ensures
      var more := [Follow(r, topic)] + Polls(r, limits);
      && CanRun(h, INIT, steps + more) && Run(h, INIT, steps + more).db == Run(h, INIT, steps).db
      && r in Run(h, INIT, steps + more).readers
      && Run(h, INIT, steps + more).readers[r].received == All(Run(h, INIT, steps).db.table, topic)
  {
    RunKeepsInv(h, INIT, steps);
    var s := Run(h, INIT, steps);
    var t := Apply(h, s, Follow(r, topic));
    StepKeepsInv(h, s, Follow(r, topic));
    PollsReadAll(h, t, r, limits);
    var more := [Follow(r, topic)] + Polls(r, limits);
    assert more[0] == Follow(r, topic) && more[1..] == Polls(r, limits);
    RunJoined(h, INIT, steps, more);
  }

  /** A commit makes a transaction's events visible after all others, an abort none; either frees its locks
      and no others. An insert waits exactly for another transaction that holds the task's lock. */
  lemma EndsFree(h: Hash, s: State, tx: TxId, task: TaskId, kind: nat, payload: string, k: int)
    requires tx in s.db.pending
    ensures
      var c, a := Apply(h, s, Commit(tx)).db, Apply(h, s, Abort(tx)).db;
      && c.table == s.db.table + s.db.pending[tx] && a.table == s.db.table
      && tx !in c.pending && tx !in a.pending
      && (k in c.locks <==> k in s.db.locks && s.db.locks[k] != tx) && (k in a.locks <==> k in s.db.locks && s.db.locks[k] != tx)
      && (k in c.locks ==> c.locks[k] == s.db.locks[k]) && (k in a.locks ==> a.locks[k] == s.db.locks[k])
    ensures Enabled(h, s, Append(tx, task, kind, payload)) <==>
      !(h.key(task) in s.db.locks && s.db.locks[h.key(task)] != tx)
  {
  }

  function LastSeq(page: seq<Event>): nat {
    if page == [] then 0 else page[|page| - 1].seqNo
  }

  /** Everything comes after 0. */
  lemma AllIsAfterZero(table: seq<Event>, topic: Topic)
    requires TaskAscending(table) && forall e :: e in table ==> e.seqNo > 0
    ensures After(table, topic, 0) == All(table, topic)
  {
    QueryIs(table, topic, 0, 0);
    FilterSplit(table, topic, 0);
    NothingUpTo(table, topic, 0);
    assert [] + After(table, topic, 0) == After(table, topic, 0);
  }

  lemma AllIsRead(table: seq<Event>, topic: Topic, c: nat)
    requires TaskAscending(table) && After(table, topic, c) == []
    ensures UpTo(table, topic, c) == All(table, topic)
  {
    QueryIs(table, topic, c, 0);
    FilterSplit(table, topic, c);
    assert UpTo(table, topic, c) + [] == UpTo(table, topic, c);
  }

  /** Read from the start, a topic whose reader has everything gives what that reader has. */
  lemma FromTheStart(db: Db, r: Reader, limit: int)
    requires TaskAscending(db.table) && ReaderOk(db, r) && After(db.table, r.topic, r.cursor) == []
    requires forall e :: e in db.table ==> e.seqNo > 0
    ensures ListEvents(db.table, r.topic, 0, limit) == Take(r.received, EffectiveLimit(limit))
    ensures r.cursor > 0 ==> r.received != []
  {
    QueryIs(db.table, r.topic, 0, limit);
    AllIsAfterZero(db.table, r.topic);
    AllIsRead(db.table, r.topic, r.cursor);
    FilterMembers(db.table, (e: Event) => r.topic.Wants(e));
  }

  lemma NothingUpTo(table: seq<Event>, topic: Topic, c: nat)
    requires forall e :: e in table ==> e.seqNo > c
    ensures UpTo(table, topic, c) == []
  {
    FilterNone(table, (e: Event) => topic.Wants(e) && e.seqNo <= c);
  }

  lemma NothingAfter(table: seq<Event>, topic: Topic, c: nat)
    requires forall e :: e in table ==> e.seqNo <= c
    ensures After(table, topic, c) == []
  {
    FilterNone(table, (e: Event) => topic.Wants(e) && e.seqNo > c);
  }

  /** The tool's last_seq is 0 on an empty page. A client that passes it back, as the field tells it
      to, after having read something and with nothing left to read, is sent its events again from
      the first. */
  lemma EmptyPageStartsOver(h: Hash, steps: seq<Step>, r: nat, limit: int, next: int)
    requires CanRun(h, INIT, steps) && r in Run(h, INIT, steps).readers
    requires var s := Run(h, INIT, steps);
             s.readers[r].cursor > 0 && ListEvents(s.db.table, s.readers[r].topic, s.readers[r].cursor, limit) == []
    ensures var s := Run(h, INIT, steps);
            var page := ListEvents(s.db.table, s.readers[r].topic, s.readers[r].cursor, limit);
            var again := ListEvents(s.db.table, s.readers[r].topic, LastSeq(page), next);
            again != [] && again <= s.readers[r].received && again[0] == s.readers[r].received[0]
  {
    RunKeepsInv(h, INIT, steps);
    var s := Run(h, INIT, steps);
    assert ReaderOk(s.db, s.readers[r]);
    SentAgain(s.db, s.readers[r], limit, next);
  }

  lemma SentAgain(db: Db, r: Reader, limit: int, next: int)
    requires TaskAscending(db.table) && ReaderOk(db, r) && forall e :: e in db.table ==> e.seqNo > 0
    requires r.cursor > 0 && ListEvents(db.table, r.topic, r.cursor, limit) == []
    ensures var again := ListEvents(db.table, r.topic, LastSeq([]), next);
            again != [] && again <= r.received && again[0] == r.received[0]
  {
    QueryIs(db.table, r.topic, r.cursor, limit);
    FromTheStart(db, r, next);
  }

  /** The insert as it would be without the advisory lock. */
  function AppendUnlocked(db: Db, tx: TxId, task: TaskId, kind: nat, payload: string): Db
    requires tx in db.pending
  {
    db.(nextSeq := db.nextSeq + 1,
        pending := db.pending[tx := db.pending[tx] + [Event(db.nextSeq, task, kind, payload)]])
  }

  /** Without the lock two transactions can commit against the order of their numbers, and a
      reader that polled in between never receives the earlier event, however it polls on. */
  lemma LockNeeded(payload: string, limit: int, later: int)
    ensures var open := Db([], 1, map[7 := [], 8 := []], map[]);
            var inserted := AppendUnlocked(AppendUnlocked(open, 7, 0, 0, payload), 8, 0, 0, payload);
            var topic := Topic(0, {});
            var first := CommitOf(inserted, 8);
            var reader := Advance(Reader(topic, 0, []), ListEvents(first.table, topic, 0, limit));
            var both := CommitOf(first, 7);
            && Event(1, 0, 0, payload) in both.table && Event(1, 0, 0, payload) !in reader.received
            && ListEvents(both.table, topic, reader.cursor, later) == []
  {
    CommittedOutOfOrder(payload);
    ListOne(Event(2, 0, 0, payload), Topic(0, {}), 0, limit);
    ListNone([Event(2, 0, 0, payload), Event(1, 0, 0, payload)], Topic(0, {}), 2, later);
  }

  lemma CommittedOutOfOrder(payload: string)
    ensures var open := Db([], 1, map[7 := [], 8 := []], map[]);
            var inserted := AppendUnlocked(AppendUnlocked(open, 7, 0, 0, payload), 8, 0, 0, payload);
            var first := CommitOf(inserted, 8);
            && first.table == [Event(2, 0, 0, payload)] && 7 in first.pending
            && CommitOf(first, 7).table == [Event(2, 0, 0, payload), Event(1, 0, 0, payload)]
  {
    assert [] + [Event(2, 0, 0, payload)] == [Event(2, 0, 0, payload)];
  }

  lemma ListNone(table: seq<Event>, topic: Topic, c: nat, limit: int)
    requires forall e :: e in table ==> e.seqNo <= c
    ensures ListEvents(table, topic, c, limit) == []
  {
    FilterNone(table, (e: Event) => topic.Wants(e) && e.seqNo > c);
  }

  lemma ListOne(e: Event, topic: Topic, c: nat, limit: int)
    requires topic.Wants(e) && e.seqNo > c
    ensures ListEvents([e], topic, c, limit) == [e]
  {
    QueryIs([e], topic, c, limit);
    assert [e][..0] == [];
    assert After([e], topic, c) == After([], topic, c) + [e] == [e];
  }

  // ---------- the store's own code ----------

  class Table {
    var rows: seq<Event>
    var nextSeq: nat
    var pending: map<TxId, seq<Event>>
    var locks: map<int, TxId>

    function State(): Db
      reads this
    {
      Db(rows, nextSeq, pending, locks)
    }

    /** One statement: take the task's lock, then insert. Without the lock it waits, which is to
        say nothing happens; an unknown type is refused before anything is asked of the database. */
    method AppendEvent(h: Hash, known: set<nat>, tx: TxId, task: TaskId, kind: nat, payload: string)
      returns (written: Option<Event>)
      requires tx in pending
      modifies this
      ensures written.Some? <==> kind in known && (h.key(task) in old(locks) ==> old(locks)[h.key(task)] == tx)
      ensures written.None? ==> State() == old(State())
      ensures written.Some? ==>
        && State() == AppendTo(h, old(State()), tx, task, kind, payload)
        && written.value == Event(old(nextSeq), task, kind, if payload == "" then "{}" else payload)
        && rows == old(rows) && nextSeq == old(nextSeq) + 1
        && pending == old(pending)[tx := old(pending[tx]) + [written.value]]
        && locks == old(locks)[h.key(task) := tx]
    {
      if kind !in known {
        return None;
      }
      var body := payload;
      if |body| == 0 {
        body := "{}";
      }
      var key := h.key(task);
      if key in locks && locks[key] != tx {
        return None;
      }
      locks := locks[key := tx];
      var e := Event(nextSeq, task, kind, body);
      nextSeq := nextSeq + 1;
      pending := pending[tx := pending[tx] + [e]];
      return Some(e);
    }

    /** The row loop over a query's result. */
    method List(topic: Topic, after: nat, limit: int) returns (events: seq<Event>)
      ensures events == ListEvents(rows, topic, after, limit)
    {
      var n := limit;
      if limit <= 0 {
        n := DEFAULT_EVENT_LIMIT;
      } else if limit > MAX_EVENT_LIMIT {
        n := MAX_EVENT_LIMIT;
      }
      var query := OrderBySeq(Filter(rows, (e: Event) => topic.Wants(e) && e.seqNo > after));
      events := [];
      while |events| < |query| && |events| < n
        invariant |events| <= |query| && |events| <= n
        invariant events == query[..|events|]
      {
        events := events + [query[|events|]];
      }
    }
  }
}
