/**
 The server-sent event stream of one job: a cursor over its log, read by a client that reconnects.

 Transactions of the service, polls and yields of the generator, deliveries and broken connections
 interleave freely.  A reconnecting client passes the id of the last event it received.
 */
module EventStream {
  import opened Options
  import opened QueueTables
  import Decimal

  // ---------------------------------------------------------------- events_after

  /** SELECT ... WHERE sequence>? over the rows in insertion order. */
  function EventsAfter(log: seq<Event>, cursor: int): seq<Event> {
    if log == [] then [] else
    var e := log[|log| - 1];
    EventsAfter(log[..|log| - 1], cursor) + if e.sequence > cursor then [e] else []
  }

  /** On the log of a job the query returns exactly what follows the cursor, in sequence order. */
  lemma {:induction false} EventsAfterIsSuffix(log: seq<Event>, cursor: int)
    requires Replay(log).Some? && -1 <= cursor < |log|
    ensures EventsAfter(log, cursor) == log[cursor + 1..]
    decreases |log|
  {
    var front, e := log[..|log| - 1], log[|log| - 1];
    ReplayFront(log);
    if cursor == |log| - 1 {
      NothingAfter(log, cursor);
    } else if front == [] {
      assert EventsAfter(front, cursor) == [];
      assert log == [e];
    } else {
      hide Replay;
      EventsAfterIsSuffix(front, cursor);
      assert log[cursor + 1..] == front[cursor + 1..] + [e];
    }
  }

  lemma ReplayFront(log: seq<Event>)
    requires Replay(log).Some?
    ensures log != [] && log[|log| - 1].sequence == |log| - 1
    ensures |log| > 1 ==> Replay(log[..|log| - 1]).Some?
  {}

  lemma {:induction false} NothingAfter(log: seq<Event>, cursor: int)
    requires Replay(log).Some? && |log| - 1 <= cursor
    ensures EventsAfter(log, cursor) == []
    decreases |log|
  {
    var front := log[..|log| - 1];
    if front != [] { NothingAfter(front, cursor); }
  }

  method SelectEventsAfter(log: seq<Event>, cursor: int) returns (rows: seq<Event>)
    ensures rows == EventsAfter(log, cursor)
    ensures Replay(log).Some? && -1 <= cursor < |log| ==> rows == log[cursor + 1..]
  {
    rows := [];
    for k := 0 to |log|
      invariant rows == EventsAfter(log[..k], cursor)
    {
      assert log[..k + 1][..k] == log[..k];
      if log[k].sequence > cursor { rows := rows + [log[k]]; }
    }
    assert log[..|log|] == log;
    if Replay(log).Some? && -1 <= cursor < |log| { EventsAfterIsSuffix(log, cursor); }
  }

  ghost predicate Segment(history: seq<Event>, from: nat, part: seq<Event>) {
    from + |part| <= |history| && history[from..from + |part|] == part
  }

  lemma SequenceAt(log: seq<Event>, k: nat)
    requires Replay(log).Some? && k < |log|
    ensures log[k].sequence == k
  {
    ReplayIffWalk(log);
  }

  /** What one query sees of the log: nothing once the job is deleted, else a log that later ones extend. */
  ghost predicate Sees(t: Tables, id: JobId, history: seq<Event>) {
    LogOf(t, id) == [] || (Replay(LogOf(t, id)).Some? && LogOf(t, id) <= history)
  }

  lemma QueryIsSegment(t: Tables, id: JobId, history: seq<Event>, cursor: int)
    requires Sees(t, id, history) && -1 <= cursor < |history|
    ensures Segment(history, cursor + 1, EventsAfter(LogOf(t, id), cursor))
    ensures |LogOf(t, id)| <= cursor + 1 + |EventsAfter(LogOf(t, id), cursor)|
  {
    var log := LogOf(t, id);
    if log == [] {
    } else if cursor < |log| {
      EventsAfterIsSuffix(log, cursor);
      assert history[cursor + 1..|log|] == log[cursor + 1..];
    } else {
      NothingAfter(log, cursor);
    }
  }

  lemma NothingSent(history: seq<Event>, from: nat)
    requires from <= |history|
    ensures Segment(history, from, [])
  {}

  /** Yielding the next row of a query lengthens the run by the next event of the log. */
  lemma YieldExtends(history: seq<Event>, from: nat, sent: seq<Event>, base: nat, rows: seq<Event>, k: nat)
    requires Replay(history).Some? && Segment(history, from, sent) && Segment(history, base, rows)
    requires k < |rows| && from + |sent| == base + k
    ensures base + k < |history| && rows[k].sequence == base + k && Segment(history, from, sent + [rows[k]])
  {
    hide Replay, Segment;
    SegmentAt(history, base, rows, k);
    SequenceAt(history, base + k);
    SegmentPush(history, from, sent);
  }

  lemma SegmentAt(history: seq<Event>, from: nat, part: seq<Event>, k: nat)
    requires Segment(history, from, part) && k < |part|
    ensures from + k < |history| && part[k] == history[from + k]
  {
    assert part[k] == history[from..from + |part|][k];
  }

  lemma SegmentPush(history: seq<Event>, from: nat, part: seq<Event>)
    requires Segment(history, from, part) && from + |part| < |history|
    ensures Segment(history, from, part + [history[from + |part|]])
  {
    var n := from + |part|;
    assert history[from..n + 1] == history[from..n] + [history[n]];
  }

  /** Why the generator stops: a terminal event, a job that is over or gone, or a client that is. */
  ghost predicate StopsAfter(sent: seq<Event>, queried: seq<Tables>, checked: seq<Tables>, id: JobId, rounds: nat)
    requires |queried| == |checked|
  {
    || (sent != [] && sent[|sent| - 1].state.Terminal())
    || rounds == |queried|
    || (0 < rounds <= |queried|
        && (id in checked[rounds - 1].jobs ==> checked[rounds - 1].jobs[id].state.Terminal()))
  }

  /**
   The generator of one connection: `queried` and `checked` are the tables as its successive queries find them.  It
   yields a gap-free run of the log that starts right after its cursor and stops at a terminal event; short of one, the
   run reaches the end of every log that its `rounds` queries saw.
   */
  method Stream(start: int, queried: seq<Tables>, checked: seq<Tables>, id: JobId, ghost history: seq<Event>)
    returns (sent: seq<Event>, ghost rounds: nat)
    requires |queried| == |checked| && Replay(history).Some? && -1 <= start < |history|
    requires forall k | 0 <= k < |queried| :: Sees(queried[k], id, history)
    ensures Segment(history, start + 1, sent)
    ensures forall k | 0 <= k < |sent| :: sent[k].sequence == start + 1 + k
    ensures forall k | 0 <= k < |sent| - 1 :: !sent[k].state.Terminal()
    ensures rounds <= |queried| && StopsAfter(sent, queried, checked, id, rounds)
    ensures forall r | 0 <= r < rounds - 1 :: id in checked[r].jobs && !checked[r].jobs[id].state.Terminal()
    ensures (sent != [] && sent[|sent| - 1].state.Terminal())
            || forall r | 0 <= r < rounds :: |LogOf(queried[r], id)| <= start + 1 + |sent|
  {
    hide Replay, Sees, Segment, EventsAfter;
    assert Segment(history, start + 1, []) by { NothingSent(history, start + 1); }
    sent := [];
    var cursor, round := start, 0;
    rounds := 0;
    while round < |queried|
      invariant 0 <= round <= |queried| && cursor == start + |sent| < |history|
      invariant Segment(history, start + 1, sent)
      invariant forall k | 0 <= k < |sent| :: sent[k].sequence == start + 1 + k && !sent[k].state.Terminal()
      invariant forall r | 0 <= r < round :: id in checked[r].jobs && !checked[r].jobs[id].state.Terminal()
      invariant rounds == round && forall r | 0 <= r < round :: |LogOf(queried[r], id)| <= start + 1 + |sent|
    {
      var rows := SelectEventsAfter(LogOf(queried[round], id), cursor);
      QueryIsSegment(queried[round], id, history, cursor);
      ghost var base := cursor + 1;
      var k := 0;
      while k < |rows|
        invariant 0 <= k <= |rows| && Segment(history, base, rows)
                  && cursor == base + k - 1 == start + |sent| < |history|
        invariant Segment(history, start + 1, sent)
        invariant forall j | 0 <= j < |sent| :: sent[j].sequence == start + 1 + j && !sent[j].state.Terminal()
      {
        var event := rows[k];
        YieldExtends(history, start + 1, sent, base, rows, k);
        cursor := event.sequence;
        sent := sent + [event];
        if event.state.Terminal() { return; }
        k := k + 1;
      }
      rounds := round + 1;
      if id !in checked[round].jobs || checked[round].jobs[id].state.Terminal() { return; }
      round := round + 1;
    }
  }

  // ---------------------------------------------------------------- the protocol

  /** `fetched` is the batch being yielded, `wire` what was yielded and has not arrived yet. */
  datatype Connection = Connection(cursor: int, fetched: seq<Event>, wire: seq<Event>, ended: bool)

  /** `history` is the job's log; it outlives the rows when the job is deleted. */
  datatype World = World(t: Tables, history: seq<Event>, received: seq<Event>, connection: Option<Connection>)

  datatype Action =
    | Transaction(op: Operation)
    | Connect
    | Poll
    | Yield
    | Deliver
    | Drop

  /** The Last-Event-ID header a client sends: the id of its last event. */
  function LastEventId(received: seq<Event>): Option<string> {
    if received == [] then None else Some(Decimal.Print(received[|received| - 1].sequence))
  }

  /** A missing or non-numeric header starts from the beginning. */
  function StartCursor(header: Option<string>): int {
    if header.Some? && Decimal.Parse(header.value).Some? then Decimal.Parse(header.value).value else -1
  }

  ghost predicate Reenqueues(op: Operation, id: JobId) { op.Enqueue? && op.id == id }

  /** Ids are never drawn twice, so the watched job is not enqueued again. */
  ghost function Next(w: World, a: Action, id: JobId): World {
    match a
    case Transaction(op) =>
      if Reenqueues(op, id) then w
      else var t' := Apply(w.t, op);
           w.(t := t', history := if id in t'.jobs then LogOf(t', id) else w.history)
    case Connect => // 404 when the job does not exist
      if w.connection.Some? || id !in w.t.jobs then w
      else w.(connection := Some(Connection(StartCursor(LastEventId(w.received)), [], [], false)))
    case Poll =>
      if w.connection.None? || w.connection.value.ended || w.connection.value.fetched != [] then w
      else var c, rows := w.connection.value, EventsAfter(LogOf(w.t, id), w.connection.value.cursor);
           if rows != [] then w.(connection := Some(c.(fetched := rows)))
           else if id !in w.t.jobs || w.t.jobs[id].state.Terminal() then w.(connection := Some(c.(ended := true)))
           else w
    case Yield =>
      if w.connection.None? || w.connection.value.ended || w.connection.value.fetched == [] then w
      else var c := w.connection.value;
           var e := c.fetched[0];
           w.(connection := Some(Connection(e.sequence, c.fetched[1..], c.wire + [e], e.state.Terminal())))
    case Deliver =>
      if w.connection.None? || w.connection.value.wire == [] then w
      else var c := w.connection.value;
           w.(received := w.received + [c.wire[0]], connection := Some(c.(wire := c.wire[1..])))
    case Drop => w.(connection := None)
  }

  ghost function Run(w: World, actions: seq<Action>, id: JobId): World
    decreases |actions|
  {
    if actions == [] then w else Run(Next(w, actions[0], id), actions[1..], id)
  }

  // ---------------------------------------------------------------- proofs

  ghost predicate Inv(w: World, id: JobId) {
    && TablesOk(w.t)
    && Replay(w.history).Some?
    && (id in w.t.jobs ==> LogOf(w.t, id) == w.history)
    && w.received <= w.history
    && (w.connection.Some? ==> ConnectionOk(w))
  }

  ghost predicate ConnectionOk(w: World)
    requires w.connection.Some?
  {
    var c := w.connection.value;
    && Segment(w.history, |w.received|, c.wire)
    && Segment(w.history, |w.received| + |c.wire|, c.fetched)
    && c.cursor == |w.received| + |c.wire| - 1
  }

  lemma SegmentGrows(history: seq<Event>, history': seq<Event>, from: nat, part: seq<Event>)
    requires Segment(history, from, part) && history <= history'
    ensures Segment(history', from, part)
  {}

  lemma TransactionKeeps(w: World, op: Operation, id: JobId)
    requires Inv(w, id)
    ensures Inv(Next(w, Transaction(op), id), id)
  {
    hide RowOk, Apply, Replay, Segment;
    if !Reenqueues(op, id) {
      var w' := Next(w, Transaction(op), id);
      ApplyOk(w.t, op);
      if id in w.t.jobs { ApplyEvolves(w.t, op, id); }
      NotCreated(w.t, op, id);
      if id in w'.t.jobs { LogReplays(w'.t, id); }
      assert w.history <= w'.history;
      if w.connection.Some? {
        SegmentGrows(w.history, w'.history, |w.received|, w.connection.value.wire);
        SegmentGrows(w.history, w'.history, |w.received| + |w.connection.value.wire|, w.connection.value.fetched);
      }
    }
  }

  lemma LogReplays(t: Tables, id: JobId)
    requires TablesOk(t) && id in t.jobs
    ensures Replay(LogOf(t, id)).Some?
  {
    assert RowOk(t, id);
  }

  lemma NotCreated(t: Tables, op: Operation, id: JobId)
    requires !Reenqueues(op, id)
    ensures id in Apply(t, op).jobs ==> id in t.jobs
  {}

  lemma ConnectKeeps(w: World, id: JobId)
    requires Inv(w, id)
    ensures Inv(Next(w, Connect, id), id)
  {
    hide TablesOk;
    var n := |w.received|;
    if n > 0 {
      SequenceAt(w.history, n - 1);
      Decimal.ParsePrint(n - 1);
      assert w.received[n - 1] == w.history[n - 1];
    }
    assert StartCursor(LastEventId(w.received)) == n - 1;
  }

  lemma PollKeeps(w: World, id: JobId)
    requires Inv(w, id)
    ensures Inv(Next(w, Poll, id), id)
  {
    hide RowOk, Replay;
    if w.connection.Some? {
      var c := w.connection.value;
      if id in w.t.jobs {
        EventsAfterIsSuffix(w.history, c.cursor);
      } else {
        assert LogOf(w.t, id) == [];
      }
    }
  }

  lemma YieldKeeps(w: World, id: JobId)
    requires Inv(w, id)
    ensures Inv(Next(w, Yield, id), id)
  {
    hide TablesOk, Segment, Replay;
    if w.connection.Some? && w.connection.value.fetched != [] {
      var c, at := w.connection.value, |w.received| + |w.connection.value.wire|;
      YieldExtends(w.history, |w.received|, c.wire, at, c.fetched, 0);
      SegmentTail(w.history, at, c.fetched);
    }
  }

  lemma SegmentTail(history: seq<Event>, from: nat, part: seq<Event>)
    requires Segment(history, from, part) && part != []
    ensures Segment(history, from + 1, part[1..])
  {
    assert history[from + 1..from + |part|] == history[from..from + |part|][1..];
  }

  lemma DeliverKeeps(w: World, id: JobId)
    requires Inv(w, id)
    ensures Inv(Next(w, Deliver, id), id)
  {
    hide TablesOk, Replay;
    if w.connection.Some? && w.connection.value.wire != [] {
      var c, n := w.connection.value, |w.received|;
      assert c.wire[0] == w.history[n..n + |c.wire|][0] == w.history[n];
      assert w.history[..n + 1] == w.history[..n] + [w.history[n]];
      assert w.history[n + 1..n + |c.wire|] == w.history[n..n + |c.wire|][1..];
    }
  }

  lemma NextKeeps(w: World, a: Action, id: JobId)
    requires Inv(w, id)
    ensures Inv(Next(w, a, id), id)
  {
    hide Next, Inv;
    match a
    case Transaction(op) => TransactionKeeps(w, op, id);
    case Connect => ConnectKeeps(w, id);
    case Poll => PollKeeps(w, id);
    case Yield => YieldKeeps(w, id);
    case Deliver => DeliverKeeps(w, id);
    case Drop => DropKeeps(w, id);
  }

  lemma DropKeeps(w: World, id: JobId)
    requires Inv(w, id)
    ensures Inv(Next(w, Drop, id), id)
  {}

  /** Over any number of reconnects the client's events are a gap-free, duplicate-free prefix of the job's log. */
  lemma {:induction false} ReceivedIsPrefix(w: World, actions: seq<Action>, id: JobId)
    requires TablesOk(w.t) && id in w.t.jobs && w.history == LogOf(w.t, id) && w.received == [] && w.connection.None?
    ensures var w' := Run(w, actions, id);
            && w'.received <= w'.history && w.history <= w'.history
            && (forall k | 0 <= k < |w'.received| :: w'.received[k].sequence == k)
            && (id in w'.t.jobs ==> w'.history == LogOf(w'.t, id))
  {
    LogReplays(w.t, id);
    RunKeeps(w, actions, id);
    var w' := Run(w, actions, id);
    forall k | 0 <= k < |w'.received| ensures w'.received[k].sequence == k { SequenceAt(w'.history, k); }
  }

  lemma {:induction false} RunKeeps(w: World, actions: seq<Action>, id: JobId)
    requires Inv(w, id)
    ensures Inv(Run(w, actions, id), id) && w.history <= Run(w, actions, id).history
    decreases |actions|
  {
    if actions != [] {
      HistoryGrows(w, actions[0], id);
      NextKeeps(w, actions[0], id);
      hide Inv, Next;
      RunKeeps(Next(w, actions[0], id), actions[1..], id);
    }
  }

  lemma HistoryGrows(w: World, a: Action, id: JobId)
    requires Inv(w, id)
    ensures w.history <= Next(w, a, id).history
  {
    hide RowOk, Apply, Replay;
    if a.Transaction? && !Reenqueues(a.op, id) {
      NotCreated(w.t, a.op, id);
      if id in w.t.jobs { ApplyEvolves(w.t, a.op, id); }
    }
  }

  /** A client that has seen a terminal event has seen the whole log. */
  lemma TerminalMeansComplete(w: World, id: JobId)
    requires Inv(w, id) && w.received != [] && w.received[|w.received| - 1].state.Terminal()
    ensures w.received == w.history
  {
    hide TablesOk;
    TerminalEventIsLast(w.history, |w.received| - 1);
  }

  // ---------------------------------------------------------------- a connection that is left alone

  function Rounds(n: nat): seq<Action> {
    if n == 0 then [] else [Yield, Deliver] + Rounds(n - 1)
  }

  lemma {:induction false} RunAppends(w: World, first: seq<Action>, second: seq<Action>, id: JobId)
    ensures Run(w, first + second, id) == Run(Run(w, first, id), second, id)
    decreases |first|
  {
    hide Next;
    if first == [] {
      assert first + second == second;
    } else {
      assert (first + second)[1..] == first[1..] + second;
      RunAppends(Next(w, first[0], id), first[1..], second, id);
    }
  }

  lemma RunTwo(w: World, a: Action, b: Action, id: JobId)
    ensures Run(w, [a, b], id) == Next(Next(w, a, id), b, id)
  {
    hide Next;
    assert [a, b][1..] == [b];
    assert Run(w, [a, b], id) == Run(Next(w, a, id), [b], id);
    assert [b][1..] == [];
  }

  /** The whole rest of the log has been fetched and nothing is on its way. */
  ghost predicate Fetched(w: World) {
    && w.connection.Some? && w.connection.value.wire == []
    && |w.received| <= |w.history| && w.connection.value.fetched == w.history[|w.received|..]
  }

  lemma RoundDelivers(w: World, id: JobId)
    requires Inv(w, id) && Fetched(w) && w.received != w.history && !w.connection.value.ended
    ensures var w' := Next(Next(w, Yield, id), Deliver, id);
            && Inv(w', id) && Fetched(w') && w'.t == w.t && w'.history == w.history
            && w'.received == w.received + [w.history[|w.received|]]
            && (w'.connection.value.ended <==> w.history[|w.received|].state.Terminal())
  {
    hide TablesOk, Replay, Inv, Apply, EventsAfter, LogOf;
    NextKeeps(w, Yield, id);
    NextKeeps(Next(w, Yield, id), Deliver, id);
    var n := |w.received|;
    assert w.received <= w.history && w.connection.Some? by { InvReceived(w, id); }
    assert w.history[..n] == w.received;
    assert n < |w.history|;
    assert w.history[n..][1..] == w.history[n + 1..];
  }

  lemma InvReceived(w: World, id: JobId)
    requires Inv(w, id)
    ensures w.received <= w.history && Replay(w.history).Some?
  {}

  /** The event delivered next is the last one, or none that ends the stream. */
  lemma NextIsLast(w: World, id: JobId)
    requires Inv(w, id) && w.received != w.history
    ensures |w.received| < |w.history|
    ensures w.history[|w.received|].state.Terminal() ==> |w.received| == |w.history| - 1
    ensures |w.received| == |w.history| - 1 ==> w.received + [w.history[|w.received|]] == w.history
  {
    InvReceived(w, id);
    hide Inv, Replay;
    var n := |w.received|;
    assert w.history[..n] == w.received;
    assert w.history[..|w.history|] == w.history;
    if w.history[n].state.Terminal() { TerminalEventIsLast(w.history, n); }
  }

  lemma RoundsStep(w: World, n: nat, id: JobId)
    ensures Run(w, Rounds(0), id) == w
    ensures n > 0 ==> Run(w, Rounds(n), id) == Run(Next(Next(w, Yield, id), Deliver, id), Rounds(n - 1), id)
  {
    hide Next;
    if n > 0 {
      RunTwo(w, Yield, Deliver, id);
      RunAppends(w, [Yield, Deliver], Rounds(n - 1), id);
    }
  }

  lemma {:induction false} RoundsDeliver(w: World, id: JobId, n: nat)
    requires Inv(w, id) && Fetched(w) && w.received != w.history && !w.connection.value.ended
    requires n == |w.history| - |w.received|
    ensures n > 0
    ensures var w' := Run(w, Rounds(n), id);
            && w'.received == w.history == w'.history && w'.t == w.t && w'.connection.Some?
            && (w'.connection.value.ended <==> w.history[|w.history| - 1].state.Terminal())
    decreases n
  {
    hide Next, Inv, Replay, Fetched, Run, Rounds;
    NextIsLast(w, id);
    RoundDelivers(w, id);
    FetchedConnected(Next(Next(w, Yield, id), Deliver, id));
    RoundsStep(w, n, id);
    var w1 := Next(Next(w, Yield, id), Deliver, id);
    RoundsStep(w1, 0, id);
    if n > 1 { RoundsDeliver(w1, id, n - 1); }
  }

  lemma FetchedConnected(w: World)
    ensures Fetched(w) ==> w.connection.Some?
  {}

  /**
   A client that connects to an existing job and is left alone receives the rest of its log, and the stream ends with it
   exactly if the job is over.
   */
  lemma CatchesUp(w: World, id: JobId)
    requires Inv(w, id) && w.connection.None? && id in w.t.jobs
    ensures var w' := Run(w, [Connect, Poll] + Rounds(|w.history| - |w.received|), id);
            && w'.received == w.history == w'.history && w'.connection.Some?
            && (w'.connection.value.ended <==> w.t.jobs[id].state.Terminal())
  {
    hide Next, Inv, Replay, TablesOk, Fetched, Run, Rounds, LogOf;
    InvReceived(w, id);
    var n := |w.history| - |w.received|;
    InvTables(w, id);
    LastEventState(w.t, id);
    PollFetches(w, id);
    var w2 := Next(Next(w, Connect, id), Poll, id);
    NextKeeps(w, Connect, id);
    NextKeeps(Next(w, Connect, id), Poll, id);
    FetchedConnected(w2);
    RunTwo(w, Connect, Poll, id);
    RunAppends(w, [Connect, Poll], Rounds(n), id);
    RoundsStep(w2, 0, id);
    if n > 0 { RoundsDeliver(w2, id, n); } else { assert w.history[..|w.history|] == w.history; }
  }

  lemma InvTables(w: World, id: JobId)
    requires Inv(w, id)
    ensures TablesOk(w.t)
    ensures id in w.t.jobs ==> LogOf(w.t, id) == w.history
  {}

  lemma LastEventState(t: Tables, id: JobId)
    requires TablesOk(t) && id in t.jobs
    ensures LogOf(t, id) != [] && LogOf(t, id)[|LogOf(t, id)| - 1].state == t.jobs[id].state
  {
    assert RowOk(t, id);
  }

  lemma Connects(w: World, id: JobId)
    requires Inv(w, id) && w.connection.None? && id in w.t.jobs
    ensures Next(w, Connect, id) == w.(connection := Some(Connection(|w.received| - 1, [], [], false)))
  {
    hide TablesOk, Replay, Apply, EventsAfter, LogOf;
    ConnectKeeps(w, id);
    var w1 := Next(w, Connect, id);
    assert w1.connection.Some? && ConnectionOk(w1);
  }

  lemma Polls(w: World, id: JobId)
    requires id in w.t.jobs && LogOf(w.t, id) == w.history && Replay(w.history).Some? && w.received <= w.history
    requires w.connection == Some(Connection(|w.received| - 1, [], [], false))
    ensures var rest := w.history[|w.received|..];
            Next(w, Poll, id)
            == w.(connection := Some(Connection(|w.received| - 1, rest, [],
                                                rest == [] && w.t.jobs[id].state.Terminal())))
  {
    hide Replay, EventsAfter, Apply;
    if |w.received| <= |w.history| { EventsAfterIsSuffix(w.history, |w.received| - 1); }
  }

  lemma PollFetches(w: World, id: JobId)
    requires Inv(w, id) && w.connection.None? && id in w.t.jobs
    ensures var w' := Next(Next(w, Connect, id), Poll, id);
            && w'.t == w.t && w'.history == w.history && w'.received == w.received && Fetched(w')
            && (w'.connection.value.ended <==> w.received == w.history && w.t.jobs[id].state.Terminal())
            && LogOf(w.t, id) == w.history && w.received <= w.history
  {
    hide Inv, TablesOk, Replay, LogOf, Next;
    Connects(w, id);
    InvReceived(w, id);
    InvTables(w, id);
    Polls(Next(w, Connect, id), id);
    assert w.history[..|w.history|] == w.history;
    assert w.history[|w.received|..] == [] <==> w.received == w.history;
  }

  /** A connection is not replaced, a deleted job cannot be connected to, and a finished stream yields nothing more. */
  lemma Refusals(w: World, id: JobId)
    ensures w.connection.Some? || id !in w.t.jobs ==> Next(w, Connect, id) == w
    ensures w.connection.Some? && w.connection.value.ended ==> Next(w, Poll, id) == w && Next(w, Yield, id) == w
    ensures w.connection.Some? && !w.connection.value.ended && id !in w.t.jobs && LogOf(w.t, id) == []
            && w.connection.value.fetched == [] ==>
              Next(w, Poll, id).connection == Some(w.connection.value.(ended := true))
    ensures Next(w, Drop, id) == w.(connection := None)
  {}

  /** Every transaction but a second insertion of the job happens, and the history is its log as long as it is there. */
  lemma TransactionHappens(w: World, op: Operation, id: JobId)
    requires !Reenqueues(op, id)
    ensures var w' := Next(w, Transaction(op), id);
            && w'.t == Apply(w.t, op) && w'.received == w.received && w'.connection == w.connection
            && w'.history == if id in Apply(w.t, op).jobs then LogOf(Apply(w.t, op), id) else w.history
  {
    hide Apply;
  }
}
