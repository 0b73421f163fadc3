/** A client of the get_events tool that passes last_seq back as after_seq, as the field tells it to
    (internal/mcp/tools.go:512-545), against the event log. */
module ToolClient {
  import opened Common
  import opened EventLog

  /** sentBack: an empty page has followed a non-empty one; earlier is what the client had received
      when that last happened. */
  datatype Client = Client(topic: Topic, cursor: nat, received: seq<Event>, sentBack: bool, earlier: seq<Event>)

  datatype World = World(log: State, client: Client)

  datatype Move = Log(step: Step) | Call(limit: int)

  predicate Enabled(h: Hash, w: World, move: Move) { move.Log? ==> EventLog.Enabled(h, w.log, move.step) }

  function Page(w: World, limit: int): seq<Event> {
    ListEvents(w.log.db.table, w.client.topic, w.client.cursor, limit)
  }

  /** The client keeps the page and takes over the last_seq that came with it. */
  function Take(c: Client, page: seq<Event>): Client {
    var back := page == [] && c.received != [];
    Client(c.topic, LastSeq(page), c.received + page, c.sentBack || back, if back then c.received else c.earlier)
  }

  function Apply(h: Hash, w: World, move: Move): World
    requires Enabled(h, w, move)
  {
    match move
    case Log(step) => w.(log := EventLog.Apply(h, w.log, step))
    case Call(limit) => w.(client := Take(w.client, Page(w, limit)))
  }

  predicate CanRun(h: Hash, w: World, moves: seq<Move>)
    decreases |moves|
  {
    moves == [] || (Enabled(h, w, moves[0]) && CanRun(h, Apply(h, w, moves[0]), moves[1..]))
  }

  function Run(h: Hash, w: World, moves: seq<Move>): World
    requires CanRun(h, w, moves)
    decreases |moves|
  {
    if moves == [] then w else Run(h, Apply(h, w, moves[0]), moves[1..])
  }

  /** Before the first move, for a client of one task. */
  function Start(task: TaskId): World { World(EventLog.INIT, Client(Topic(task, {}), 0, [], false, [])) }

  /** The reader the client would be had it never been sent back. */
  function Since(w: World): Reader {
    Reader(w.client.topic, w.client.cursor, UpTo(w.log.db.table, w.client.topic, w.client.cursor))
  }

  predicate Inv(h: Hash, w: World) {
    && EventLog.Inv(h, w.log) && ReaderOk(w.log.db, Since(w))
    && w.client.received == w.client.earlier + Since(w).received
    && (w.client.sentBack <==> w.client.earlier != [])
  }

  lemma LogKeepsInv(h: Hash, w: World, step: Step)
    requires Inv(h, w) && EventLog.Enabled(h, w.log, step)
    ensures Inv(h, Apply(h, w, Log(step)))
  {
    StepKeepsInv(h, w.log, step);
    if step.Commit? {
      CommitKeepsReader(h, w.log, step.tx, Since(w));
    }
  }

  lemma CallKeepsInv(h: Hash, w: World, limit: int)
    requires Inv(h, w)
    ensures Inv(h, Apply(h, w, Call(limit)))
  {
    var c, page, after := w.client, Page(w, limit), Apply(h, w, Call(limit));
    PollKeepsReader(h, w.log.db, Since(w), limit);
    if page == [] {
      NothingUpTo(w.log.db.table, c.topic, 0);
      assert c.received + [] == c.received;
      if c.received == [] {
        assert c.earlier == [] && Since(w).received == [];
      }
    } else {
      assert c.earlier + Since(w).received + page == c.earlier + (Since(w).received + page);
    }
  }

  lemma {:induction false} RunKeepsInv(h: Hash, w: World, moves: seq<Move>)
    requires Inv(h, w) && CanRun(h, w, moves)
    ensures Inv(h, Run(h, w, moves))
    decreases |moves|
  {
    if moves != [] {
      match moves[0] {
        case Log(step) => LogKeepsInv(h, w, step);
        case Call(limit) => CallKeepsInv(h, w, limit);
      }
      RunKeepsInv(h, Apply(h, w, moves[0]), moves[1..]);
    }
  }

  /** In every interleaving of transactions and calls: the client has received what it had when it
      was last sent back, and after that once more everything up to its cursor; so it has each
      visible event up to its cursor once, and nothing else, exactly if no empty page followed a
      non-empty one. */
  lemma ReceivesOnceIff(h: Hash, task: TaskId, moves: seq<Move>)
    requires CanRun(h, Start(task), moves)
    ensures
      var w := Run(h, Start(task), moves);
      var wanted := UpTo(w.log.db.table, w.client.topic, w.client.cursor);
      && w.client.received == w.client.earlier + wanted
      && (w.client.received == wanted <==> !w.client.sentBack)
  {
    RunKeepsInv(h, Start(task), moves);
    var w := Run(h, Start(task), moves);
    var wanted := UpTo(w.log.db.table, w.client.topic, w.client.cursor);
    assert w.client.earlier == [] ==> w.client.received == wanted;
    assert |w.client.received| == |w.client.earlier| + |wanted|;
  }

  lemma Prepend(h: Hash, w: World, move: Move, rest: seq<Move>)
    requires Enabled(h, w, move) && CanRun(h, Apply(h, w, move), rest)
    ensures CanRun(h, w, [move] + rest) && Run(h, w, [move] + rest) == Run(h, Apply(h, w, move), rest)
  {
    assert ([move] + rest)[0] == move && ([move] + rest)[1..] == rest;
  }

  const TX: TxId := 7

  function Written(e: Event): State {
    State(Db([e], 2, map[], map[]), map[])
  }

  /** One transaction writes one event. */
  lemma WriteOne(h: Hash, task: TaskId, payload: string)
    requires payload != ""
    ensures
      var moves := [Log(Begin(TX))] + ([Log(Append(TX, task, 0, payload))] + [Log(Commit(TX))]);
      CanRun(h, Start(task), moves)
      && Run(h, Start(task), moves) == World(Written(Event(1, task, 0, payload)), Start(task).client)
  {
    var e := Event(1, task, 0, payload);
    var w0 := Start(task);
    var w1 := World(State(Db([], 1, map[TX := []], map[]), map[]), w0.client);
    var w2 := World(State(Db([], 2, map[TX := [e]], map[h.key(task) := TX]), map[]), w0.client);
    assert Apply(h, w0, Log(Begin(TX))) == w1;
    assert [] + [e] == [e];
    assert Apply(h, w1, Log(Append(TX, task, 0, payload))) == w2;
    assert Apply(h, w2, Log(Commit(TX))) == World(Written(e), w0.client);
    var last := [Log(Commit(TX))];
    assert last[1..] == [];
    Prepend(h, w1, Log(Append(TX, task, 0, payload)), last);
    Prepend(h, w0, Log(Begin(TX)), [Log(Append(TX, task, 0, payload))] + last);
  }

  lemma CallOnce(h: Hash, w: World, page: seq<Event>)
    requires Page(w, 0) == page
    ensures Apply(h, w, Call(0)) == World(w.log, Take(w.client, page))
  {
  }

  /** With one call too many the client is sent it again. */
  lemma ReadTwice(h: Hash, task: TaskId, e: Event)
    requires e.task == task && e.seqNo == 1
    ensures
      var w := World(Written(e), Start(task).client);
      var moves := [Call(0)] + ([Call(0)] + [Call(0)]);
      CanRun(h, w, moves) && Run(h, w, moves).client.received == [e, e] && Run(h, w, moves).client.sentBack
  {
    var topic, log := Topic(task, {}), Written(e);
    var w3 := World(log, Start(task).client);
    var w4 := World(log, Client(topic, 1, [e], false, []));
    var w5 := World(log, Client(topic, 0, [e], true, [e]));
    var w6 := World(log, Client(topic, 1, [e, e], true, [e]));
    ListOne(e, topic, 0, 0);
    QueryIs([e], topic, 1, 0);
    NothingAfter([e], topic, 1);
    assert [] + [e] == [e] && [e] + [e] == [e, e];
    CallOnce(h, w3, [e]);
    CallOnce(h, w4, []);
    CallOnce(h, w5, [e]);
    var last := [Call(0)];
    assert last[1..] == [];
    Prepend(h, w4, Call(0), last);
    Prepend(h, w3, Call(0), [Call(0)] + last);
  }

  lemma {:induction false} RunBoth(h: Hash, w: World, first: seq<Move>, rest: seq<Move>)
    requires CanRun(h, w, first) && CanRun(h, Run(h, w, first), rest)
    ensures CanRun(h, w, first + rest) && Run(h, w, first + rest) == Run(h, Run(h, w, first), rest)
    decreases |first|
  {
    if first == [] {
      assert first + rest == rest;
    } else {
      assert (first + rest)[1..] == first[1..] + rest;
      RunBoth(h, Apply(h, w, first[0]), first[1..], rest);
    }
  }

  /** A run on which the client receives the only event of its task twice. */
  lemma ReceivesTwice(h: Hash, task: TaskId, payload: string)
    requires payload != ""
    ensures
      var moves := [Log(Begin(TX))] + ([Log(Append(TX, task, 0, payload))] + [Log(Commit(TX))])
                   + ([Call(0)] + ([Call(0)] + [Call(0)]));
      && CanRun(h, Start(task), moves)
      && Run(h, Start(task), moves).client.received == [Event(1, task, 0, payload), Event(1, task, 0, payload)]
  {
    WriteOne(h, task, payload);
    ReadTwice(h, task, Event(1, task, 0, payload));
    RunBoth(h, Start(task), [Log(Begin(TX))] + ([Log(Append(TX, task, 0, payload))] + [Log(Commit(TX))]),
            [Call(0)] + ([Call(0)] + [Call(0)]));
  }
}
