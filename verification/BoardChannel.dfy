/**
 * The admin command channel (BoardConnectionManager in backend/python/main.py). Coroutines
 * run interleaved and switch only where they await; the code between two awaits is one step.
 */
module BoardChannel {
  import opened Text

  type Board = string
  type Socket = nat
  type Command = string

  // ---- The manager's two dictionaries ----

  datatype Channel = Channel(connections: map<Board, Socket>, pending: map<Board, seq<Command>>)

  function Queue(c: Channel, b: Board): seq<Command> {
    if b in c.pending then c.pending[b] else []
  }

  function Registered(c: Channel, b: Board): Option<Socket> {
    if b in c.connections then Some(c.connections[b]) else None
  }

  function Drop<T>(m: map<Board, T>, b: Board): map<Board, T> {
    map k | k in m && k != b :: m[k]
  }

  /** The manager, with each method cut at its awaits. */
  class BoardConnectionManager {
    var connections: map<Board, Socket>
    var pending: map<Board, seq<Command>>

    ghost function Contents(): Channel
      reads this
    {
      Channel(connections, pending)
    }

    constructor ()
      ensures Contents() == Channel(map[], map[])
    {
      connections, pending := map[], map[];
    }

    /** `connect` after the accept, up to the first send: the commands to flush. */
    method Register(b: Board, ws: Socket) returns (queued: seq<Command>)
      modifies this
      ensures Contents() == Registering(old(Contents()), b, ws)
      ensures queued == Queue(old(Contents()), b) && Queue(Contents(), b) == []
      ensures Registered(Contents(), b) == Some(ws) && SameElsewhere(old(Contents()), Contents(), b)
    {
      connections := connections[b := ws];
      queued := if b in pending then pending[b] else [];
      pending := Drop(pending, b);
    }

    method Disconnect(b: Board)
      modifies this
      ensures Contents() == Unregistering(old(Contents()), b)
      ensures Registered(Contents(), b) == None && Queue(Contents(), b) == Queue(old(Contents()), b)
      ensures SameElsewhere(old(Contents()), Contents(), b)
    {
      connections := Drop(connections, b);
    }

    /** `send_command` up to its send: the socket to send on, if any. */
    method BeginSend(b: Board) returns (ws: Option<Socket>)
      ensures ws == Registered(Contents(), b)
    {
      ws := if b in connections then Some(connections[b]) else None;
    }

    /** `send_command` after a send that raised; the caller then queues the command. */
    method SendRaised(b: Board, cmd: Command)
      modifies this
      ensures Contents() == Queueing(Unregistering(old(Contents()), b), b, cmd)
      ensures Registered(Contents(), b) == None && Queue(Contents(), b) == Queue(old(Contents()), b) + [cmd]
      ensures SameElsewhere(old(Contents()), Contents(), b)
    {
      connections := Drop(connections, b);
      QueueCommand(b, cmd);
    }

    method QueueCommand(b: Board, cmd: Command)
      modifies this
      ensures Contents() == Queueing(old(Contents()), b, cmd)
      ensures Registered(Contents(), b) == Registered(old(Contents()), b)
      ensures Queue(Contents(), b) == Queue(old(Contents()), b) + [cmd]
      ensures SameElsewhere(old(Contents()), Contents(), b)
    {
      if b !in pending {
        pending := pending[b := []];
      }
      pending := pending[b := pending[b] + [cmd]];
    }
  }

  /** No board but `b` sees a change. */
  ghost predicate SameElsewhere(c: Channel, d: Channel, b: Board) {
    forall b' :: b' != b ==> Registered(d, b') == Registered(c, b') && Queue(d, b') == Queue(c, b')
  }

  function Registering(c: Channel, b: Board, ws: Socket): Channel {
    Channel(c.connections[b := ws], Drop(c.pending, b))
  }

  function Unregistering(c: Channel, b: Board): Channel {
    c.(connections := Drop(c.connections, b))
  }

  function Queueing(c: Channel, b: Board, cmd: Command): Channel {
    c.(pending := c.pending[b := Queue(c, b) + [cmd]])
  }

  // ---- Coroutines ----

  /** A coroutine suspended at an await, with the commands it still carries. */
  datatype Task =
    | Accepting(board: Board, ws: Socket)
    | Flushing(board: Board, ws: Socket, queue: seq<Command>)
    | Sending(board: Board, ws: Socket, cmd: Command)
    | Done

  /** A command that coroutine `sender` sent on a socket. */
  datatype Delivery = Delivery(sender: nat, board: Board, ws: Socket, cmd: Command)

  /** `sockets` are all sockets opened so far, `open` those whose handler has not ended. */
  datatype System = System(
    channel: Channel, tasks: seq<Task>, sockets: map<Socket, Board>, open: set<Socket>,
    issued: seq<(Board, Command)>, delivered: seq<Delivery>, lost: seq<Delivery>)

  const INITIAL := System(Channel(map[], map[]), [], map[], {}, [], [], [])

  datatype Event =
    | Issue(b: Board, cmd: Command)   // an admin endpoint calls send_command, then maybe queue_command
    | Open(b: Board, ws: Socket)      // a board opens a WebSocket, a new object
    | Accepted(i: nat)                // coroutine i resumes after accept
    | AcceptRaises(i: nat)
    | SendReturns(i: nat)             // coroutine i resumes after a send that delivered
    | SendRaises(i: nat)              // coroutine i resumes after a send that did not
    | Close(i: nat)                   // coroutine i, its flush done, runs its finally block

  function Enqueue(s: System, b: Board, cmd: Command): System {
    s.(channel := Queueing(s.channel, b, cmd))
  }

  function Next(s: System, e: Event): System {
    match e
    case Issue(b, cmd) =>
      var t := s.(issued := s.issued + [(b, cmd)]);
      (match Registered(s.channel, b)
       case None => Enqueue(t, b, cmd)
       case Some(ws) => t.(tasks := t.tasks + [Sending(b, ws, cmd)]))
    case Open(b, ws) =>
      if ws in s.sockets then s
      else s.(tasks := s.tasks + [Accepting(b, ws)], sockets := s.sockets[ws := b], open := s.open + {ws})
    case Accepted(i) =>
      if i < |s.tasks| && s.tasks[i].Accepting? then
        var b, ws := s.tasks[i].board, s.tasks[i].ws;
        s.(channel := Registering(s.channel, b, ws),
           tasks := s.tasks[i := Flushing(b, ws, Queue(s.channel, b))])
      else s
    case AcceptRaises(i) =>
      if i < |s.tasks| && s.tasks[i].Accepting? then
        s.(tasks := s.tasks[i := Done], open := s.open - {s.tasks[i].ws})
      else s
    case SendReturns(i) =>
      if i >= |s.tasks| then s
      else
        (match s.tasks[i]
         case Sending(b, ws, cmd) =>
           s.(tasks := s.tasks[i := Done], delivered := s.delivered + [Delivery(i, b, ws, cmd)])
         case Flushing(b, ws, q) =>
           if q == [] then s
           else s.(tasks := s.tasks[i := Flushing(b, ws, q[1..])],
                   delivered := s.delivered + [Delivery(i, b, ws, q[0])])
         case _ => s)
    case SendRaises(i) =>
      if i >= |s.tasks| then s
      else
        (match s.tasks[i]
         case Sending(b, ws, cmd) =>
           s.(tasks := s.tasks[i := Done], channel := Queueing(Unregistering(s.channel, b), b, cmd))
         case Flushing(b, ws, q) =>
           if q == [] then s
           else s.(tasks := s.tasks[i := Flushing(b, ws, q[1..])],
                   lost := s.lost + [Delivery(i, b, ws, q[0])])
         case _ => s)
    case Close(i) =>
      if i < |s.tasks| && Listening(s.tasks[i]) then
        s.(tasks := s.tasks[i := Done], open := s.open - {s.tasks[i].ws},
           channel := Unregistering(s.channel, s.tasks[i].board))
      else s
  }

  /** A handler past its flush, waiting for messages of its board. */
  predicate Listening(t: Task) {
    t.Flushing? && t.queue == []
  }

  function Following(s: System, run: seq<Event>): System {
    if run == [] then s else Next(Following(s, run[..|run| - 1]), run[|run| - 1])
  }

  function After(run: seq<Event>): System {
    Following(INITIAL, run)
  }

  /** The coroutines around one manager, resumed in the order of the events. */
  class EventLoop {
    const manager: BoardConnectionManager
    var tasks: seq<Task>
    var sockets: map<Socket, Board>
    var open: set<Socket>
    var delivered: seq<Delivery>

    constructor ()
      ensures Shows(INITIAL) && fresh(manager)
    {
      manager := new BoardConnectionManager();
      tasks, sockets, open, delivered := [], map[], {}, [];
    }

    ghost predicate Shows(s: System)
      reads this, manager
    {
      && manager.Contents() == s.channel && tasks == s.tasks
      && sockets == s.sockets && open == s.open && delivered == s.delivered
    }

    /** A send that was answered; `returned` tells whether it delivered. */
    method Resume(i: nat, returned: bool, ghost s: System)
      requires Shows(s)
      modifies this, manager
      ensures Shows(Next(s, if returned then SendReturns(i) else SendRaises(i)))
    {
      hide Queueing, Unregistering;
      if i >= |tasks| { return; }
      match tasks[i]
      case Sending(b, ws, cmd) =>
        tasks := tasks[i := Done];
        if returned {
          delivered := delivered + [Delivery(i, b, ws, cmd)];
        } else {
          manager.SendRaised(b, cmd);
        }
      case Flushing(b, ws, q) =>
        if q == [] { return; }
        tasks := tasks[i := Flushing(b, ws, q[1..])];
        if returned {
          delivered := delivered + [Delivery(i, b, ws, q[0])];
        }
      case _ =>
    }

    method Turn(e: Event, ghost s: System)
      requires Shows(s)
      modifies this, manager
      ensures Shows(Next(s, e))
    {
      hide Queueing, Unregistering, Registering;
      match e
      case Issue(b, cmd) =>
        var ws := manager.BeginSend(b);
        if ws.None? {
          manager.QueueCommand(b, cmd);
        } else {
          tasks := tasks + [Sending(b, ws.value, cmd)];
        }
      case Open(b, ws) =>
        if ws !in sockets {
          tasks, sockets, open := tasks + [Accepting(b, ws)], sockets[ws := b], open + {ws};
        }
      case Accepted(i) =>
        if i < |tasks| && tasks[i].Accepting? {
          var queued := manager.Register(tasks[i].board, tasks[i].ws);
          tasks := tasks[i := Flushing(tasks[i].board, tasks[i].ws, queued)];
        }
      case AcceptRaises(i) =>
        if i < |tasks| && tasks[i].Accepting? {
          tasks, open := tasks[i := Done], open - {tasks[i].ws};
        }
      case SendReturns(i) => Resume(i, true, s);
      case SendRaises(i) => Resume(i, false, s);
      case Close(i) =>
        if i < |tasks| && Listening(tasks[i]) {
          manager.Disconnect(tasks[i].board);
          tasks, open := tasks[i := Done], open - {tasks[i].ws};
        }
    }

    method Serve(run: seq<Event>)
      requires Shows(INITIAL)
      modifies this, manager
      ensures Shows(After(run))
    {
      hide Next;
      var k := 0;
      while k < |run|
        invariant 0 <= k <= |run| && Shows(After(run[..k]))
      {
        assert run[..k + 1][..k] == run[..k];
        Turn(run[k], After(run[..k]));
        k := k + 1;
      }
      assert run[..|run|] == run;
    }
  }

  // ---- Conservation ----

  function One(p: bool): nat {
    if p then 1 else 0
  }

  function Occurs(q: seq<Command>, cmd: Command): nat {
    multiset(q)[cmd]
  }

  /** How many copies of `cmd` for board `b` a coroutine still carries. */
  function Carried(t: Task, b: Board, cmd: Command): nat {
    match t
    case Sending(b', _, cmd') => One(b' == b && cmd' == cmd)
    case Flushing(b', _, q) => if b' == b then Occurs(q, cmd) else 0
    case _ => 0
  }

  function InFlight(tasks: seq<Task>, b: Board, cmd: Command): nat {
    if tasks == [] then 0
    else InFlight(tasks[..|tasks| - 1], b, cmd) + Carried(tasks[|tasks| - 1], b, cmd)
  }

  function Count(log: seq<(Board, Command)>, b: Board, cmd: Command): nat {
    if log == [] then 0
    else Count(log[..|log| - 1], b, cmd) + One(log[|log| - 1] == (b, cmd))
  }

  function Copies(log: seq<Delivery>, b: Board, cmd: Command): nat {
    if log == [] then 0
    else Copies(log[..|log| - 1], b, cmd)
         + One(log[|log| - 1].board == b && log[|log| - 1].cmd == cmd)
  }

  /** Each issued copy of `cmd` for `b` is delivered, queued, carried by a coroutine or lost. */
  predicate Conserved(s: System, b: Board, cmd: Command) {
    Count(s.issued, b, cmd)
    == Copies(s.delivered, b, cmd) + Occurs(Queue(s.channel, b), cmd)
       + InFlight(s.tasks, b, cmd) + Copies(s.lost, b, cmd)
  }

  lemma {:induction false} InFlightUpdate(tasks: seq<Task>, i: nat, t: Task, b: Board, cmd: Command)
    requires i < |tasks|
    ensures InFlight(tasks[i := t], b, cmd) + Carried(tasks[i], b, cmd)
         == InFlight(tasks, b, cmd) + Carried(t, b, cmd)
  {
    hide Carried;
    var n := |tasks| - 1;
    if i == n {
      assert tasks[i := t][..n] == tasks[..n];
    } else {
      assert tasks[i := t][..n] == tasks[..n][i := t];
      InFlightUpdate(tasks[..n], i, t, b, cmd);
    }
  }

  lemma InFlightAppend(tasks: seq<Task>, t: Task, b: Board, cmd: Command)
    ensures InFlight(tasks + [t], b, cmd) == InFlight(tasks, b, cmd) + Carried(t, b, cmd)
  {
    assert (tasks + [t])[..|tasks|] == tasks;
  }

  lemma CountAppend(log: seq<(Board, Command)>, x: (Board, Command), b: Board, cmd: Command)
    ensures Count(log + [x], b, cmd) == Count(log, b, cmd) + One(x == (b, cmd))
  {
    assert (log + [x])[..|log|] == log;
  }

  lemma CopiesAppend(log: seq<Delivery>, d: Delivery, b: Board, cmd: Command)
    ensures Copies(log + [d], b, cmd) == Copies(log, b, cmd) + One(d.board == b && d.cmd == cmd)
  {
    assert (log + [d])[..|log|] == log;
  }

  lemma QueueingCounts(c: Channel, b: Board, cmd: Command, b': Board, cmd': Command)
    ensures Occurs(Queue(Queueing(c, b, cmd), b'), cmd') == Occurs(Queue(c, b'), cmd') + One(b == b' && cmd == cmd')
    ensures Queue(Queueing(Unregistering(c, b), b, cmd), b') == Queue(Queueing(c, b, cmd), b')
  {
  }

  lemma FlushCounts(q: seq<Command>, cmd: Command)
    requires q != []
    ensures Occurs(q, cmd) == Occurs(q[1..], cmd) + One(q[0] == cmd)
  {
    assert q == [q[0]] + q[1..];
  }

  lemma StepConserves(s: System, e: Event, b: Board, cmd: Command)
    requires Conserved(s, b, cmd)
    ensures Conserved(Next(s, e), b, cmd)
  {
    hide InFlight, Count, Copies, Occurs, Queueing;
    match e
    case Issue(b', cmd') =>
      CountAppend(s.issued, (b', cmd'), b, cmd);
      QueueingCounts(s.channel, b', cmd', b, cmd);
      if Registered(s.channel, b').Some? {
        InFlightAppend(s.tasks, Sending(b', Registered(s.channel, b').value, cmd'), b, cmd);
      }
    case Open(b', ws) =>
      if ws !in s.sockets { InFlightAppend(s.tasks, Accepting(b', ws), b, cmd); }
    case Accepted(i) =>
      if i < |s.tasks| && s.tasks[i].Accepting? {
        var b', ws := s.tasks[i].board, s.tasks[i].ws;
        InFlightUpdate(s.tasks, i, Flushing(b', ws, Queue(s.channel, b')), b, cmd);
        assert Queue(Next(s, e).channel, b) == if b == b' then [] else Queue(s.channel, b);
        NothingOccurs(cmd);
      }
    case AcceptRaises(i) =>
      if i < |s.tasks| && s.tasks[i].Accepting? { InFlightUpdate(s.tasks, i, Done, b, cmd); }
    case SendReturns(i) =>
      SendConserves(s, e, i, b, cmd);
    case SendRaises(i) =>
      SendConserves(s, e, i, b, cmd);
    case Close(i) =>
      if i < |s.tasks| && Listening(s.tasks[i]) {
        InFlightUpdate(s.tasks, i, Done, b, cmd);
        NothingOccurs(cmd);
      }
  }

  lemma NothingOccurs(cmd: Command)
    ensures Occurs([], cmd) == 0
  {
  }

  lemma SendConserves(s: System, e: Event, i: nat, b: Board, cmd: Command)
    requires Conserved(s, b, cmd) && (e == SendReturns(i) || e == SendRaises(i))
    ensures Conserved(Next(s, e), b, cmd)
  {
    hide InFlight, Count, Copies, Occurs, Queueing;
    if i < |s.tasks| {
      var task := s.tasks[i];
      if task.Sending? {
        InFlightUpdate(s.tasks, i, Done, b, cmd);
        CopiesAppend(s.delivered, Delivery(i, task.board, task.ws, task.cmd), b, cmd);
        QueueingCounts(s.channel, task.board, task.cmd, b, cmd);
      } else if task.Flushing? && task.queue != [] {
        InFlightUpdate(s.tasks, i, Flushing(task.board, task.ws, task.queue[1..]), b, cmd);
        FlushCounts(task.queue, cmd);
        CopiesAppend(s.delivered, Delivery(i, task.board, task.ws, task.queue[0]), b, cmd);
        CopiesAppend(s.lost, Delivery(i, task.board, task.ws, task.queue[0]), b, cmd);
      }
    }
  }

  /** Conservation: it holds after every interleaving, for every board and command. */
  lemma {:induction false} CommandsConserved(run: seq<Event>, b: Board, cmd: Command)
    ensures Conserved(After(run), b, cmd)
  {
    if run != [] {
      CommandsConserved(run[..|run| - 1], b, cmd);
      StepConserves(After(run[..|run| - 1]), run[|run| - 1], b, cmd);
    }
  }

  // ---- What a run issued and lost, read off its events ----

  function IssuedIn(run: seq<Event>, b: Board, cmd: Command): nat {
    if run == [] then 0
    else IssuedIn(run[..|run| - 1], b, cmd) + One(run[|run| - 1] == Issue(b, cmd))
  }

  /** The event makes a flush lose `cmd`: its head was being sent to `b` and the send raised. */
  predicate FlushLoses(s: System, e: Event, b: Board, cmd: Command) {
    e.SendRaises? && e.i < |s.tasks| && s.tasks[e.i].Flushing? && s.tasks[e.i].queue != []
    && s.tasks[e.i].board == b && s.tasks[e.i].queue[0] == cmd
  }

  function LostIn(run: seq<Event>, b: Board, cmd: Command): nat {
    if run == [] then 0
    else LostIn(run[..|run| - 1], b, cmd)
         + One(FlushLoses(After(run[..|run| - 1]), run[|run| - 1], b, cmd))
  }

  lemma IssuedStep(s: System, e: Event, b: Board, cmd: Command)
    ensures Count(Next(s, e).issued, b, cmd) == Count(s.issued, b, cmd) + One(e == Issue(b, cmd))
  {
    hide Queueing, Registering, Unregistering, Count;
    if e.Issue? { CountAppend(s.issued, (e.b, e.cmd), b, cmd); }
  }

  lemma LostStep(s: System, e: Event, b: Board, cmd: Command)
    ensures Copies(Next(s, e).lost, b, cmd) == Copies(s.lost, b, cmd) + One(FlushLoses(s, e, b, cmd))
  {
    hide Queueing, Registering, Unregistering, Count;
    if e.SendRaises? && e.i < |s.tasks| && s.tasks[e.i].Flushing? && s.tasks[e.i].queue != [] {
      var task := s.tasks[e.i];
      CopiesAppend(s.lost, Delivery(e.i, task.board, task.ws, task.queue[0]), b, cmd);
    }
  }

  lemma {:induction false} LogsAreExact(run: seq<Event>, b: Board, cmd: Command)
    ensures Count(After(run).issued, b, cmd) == IssuedIn(run, b, cmd)
    ensures Copies(After(run).lost, b, cmd) == LostIn(run, b, cmd)
  {
    hide Next, FlushLoses;
    if run != [] {
      LogsAreExact(run[..|run| - 1], b, cmd);
      IssuedStep(After(run[..|run| - 1]), run[|run| - 1], b, cmd);
      LostStep(After(run[..|run| - 1]), run[|run| - 1], b, cmd);
    }
  }

  /**
   * After any run the copies delivered, queued or carried are the copies issued but for those
   * whose send raised during a reconnect flush; so none is delivered twice.
   */
  lemma CommandsAccountedFor(run: seq<Event>, b: Board, cmd: Command)
    ensures var s := After(run);
            Copies(s.delivered, b, cmd) + Occurs(Queue(s.channel, b), cmd) + InFlight(s.tasks, b, cmd)
            == IssuedIn(run, b, cmd) - LostIn(run, b, cmd)
  {
    hide Next;
    CommandsConserved(run, b, cmd);
    LogsAreExact(run, b, cmd);
  }

  // ---- Reconnecting ----

  /** The deliveries of one coroutine, in order. */
  function By(log: seq<Delivery>, i: nat): seq<Delivery> {
    if log == [] then []
    else By(log[..|log| - 1], i) + (if log[|log| - 1].sender == i then [log[|log| - 1]] else [])
  }

  lemma ByAppend(log: seq<Delivery>, d: Delivery, i: nat)
    ensures By(log + [d], i) == By(log, i) + (if d.sender == i then [d] else [])
  {
    assert (log + [d])[..|log|] == log;
  }

  function Deliveries(i: nat, b: Board, ws: Socket, q: seq<Command>): seq<Delivery> {
    seq(|q|, k requires 0 <= k < |q| => Delivery(i, b, ws, q[k]))
  }

  /** What is left to flush of coroutine `t`. */
  function Left(t: Task): seq<Command> {
    if t.Flushing? then t.queue else []
  }

  /** How the sends of coroutine `i` were answered in a run: true where they returned. */
  function Answers(run: seq<Event>, i: nat): seq<bool> {
    if run == [] then []
    else
      var e := run[|run| - 1];
      Answers(run[..|run| - 1], i)
      + (if e == SendReturns(i) then [true] else if e == SendRaises(i) then [false] else [])
  }

  /** The commands of `q` whose own send was answered as `wanted`, in order. */
  function Chosen(q: seq<Command>, answers: seq<bool>, wanted: bool): seq<Command>
    requires |q| == |answers|
  {
    if q == [] then []
    else
      var n := |q| - 1;
      Chosen(q[..n], answers[..n], wanted) + (if answers[n] == wanted then [q[n]] else [])
  }

  /** A handler of socket `ws`, past its accept or ended. */
  predicate Handles(t: Task, b: Board, ws: Socket) {
    t == Done || (t.Flushing? && t.board == b && t.ws == ws)
  }

  /** An answer of coroutine `i` that still has something to flush moves its head to one log. */
  predicate Answered(s: System, t: System, i: nat, b: Board, ws: Socket, returned: bool)
    requires i < |s.tasks| && i < |t.tasks|
  {
    var q := Left(s.tasks[i]);
    q != [] && t.tasks[i] == Flushing(b, ws, q[1..])
    && t.delivered == s.delivered + (if returned then [Delivery(i, b, ws, q[0])] else [])
    && t.lost == s.lost + (if returned then [] else [Delivery(i, b, ws, q[0])])
  }

  /** One step of any coroutine: either an answer of `i`, or nothing of `i` changes. */
  lemma StepFlushes(s: System, e: Event, i: nat, b: Board, ws: Socket)
    requires i < |s.tasks| && Handles(s.tasks[i], b, ws)
    ensures var t, answered := Next(s, e), (e == SendReturns(i) || e == SendRaises(i)) && Left(s.tasks[i]) != [];
            && i < |t.tasks| && Handles(t.tasks[i], b, ws)
            && (answered ==> Answered(s, t, i, b, ws, e == SendReturns(i)))
            && (!answered ==> && Left(t.tasks[i]) == Left(s.tasks[i])
                              && By(t.delivered, i) == By(s.delivered, i) && By(t.lost, i) == By(s.lost, i))
  {
    hide Queueing, Registering, Unregistering, By;
    var t := Next(s, e);
    if |t.delivered| > |s.delivered| { ByAppend(s.delivered, t.delivered[|s.delivered|], i); }
    if |t.lost| > |s.lost| { ByAppend(s.lost, t.lost[|s.lost|], i); }
  }

  /** What coroutine `i` has left, has delivered and has lost once its first `n` sends were answered. */
  predicate FlushedTo(s: System, t: System, i: nat, answers: seq<bool>, n: nat)
    requires i < |s.tasks| && s.tasks[i].Flushing? && i < |t.tasks| && n <= |answers|
    requires n <= |s.tasks[i].queue|
  {
    var b, ws, q := s.tasks[i].board, s.tasks[i].ws, s.tasks[i].queue;
    && Left(t.tasks[i]) == q[n..]
    && By(t.delivered, i) == By(s.delivered, i) + Deliveries(i, b, ws, Chosen(q[..n], answers[..n], true))
    && By(t.lost, i) == By(s.lost, i) + Deliveries(i, b, ws, Chosen(q[..n], answers[..n], false))
  }

  lemma NextAnswer(q: seq<Command>, answers: seq<bool>, n: nat, i: nat, b: Board, ws: Socket, wanted: bool)
    requires n < |q| && n < |answers|
    ensures Deliveries(i, b, ws, Chosen(q[..n + 1], answers[..n + 1], wanted)) ==
            Deliveries(i, b, ws, Chosen(q[..n], answers[..n], wanted))
            + (if answers[n] == wanted then [Delivery(i, b, ws, q[n])] else [])
  {
    assert q[..n + 1][..n] == q[..n] && answers[..n + 1][..n] == answers[..n];
  }

  lemma FlushStep(s: System, t: System, u: System, i: nat, answers: seq<bool>, n: nat)
    requires i < |s.tasks| && s.tasks[i].Flushing? && i < |t.tasks| && i < |u.tasks|
    requires n < |answers| && n < |s.tasks[i].queue| && FlushedTo(s, t, i, answers, n)
    requires Answered(t, u, i, s.tasks[i].board, s.tasks[i].ws, answers[n])
    ensures FlushedTo(s, u, i, answers, n + 1)
  {
    hide By, Deliveries, Chosen;
    var b, ws, q := s.tasks[i].board, s.tasks[i].ws, s.tasks[i].queue;
    NextAnswer(q, answers, n, i, b, ws, true);
    NextAnswer(q, answers, n, i, b, ws, false);
    ByAppend(t.delivered, Delivery(i, b, ws, q[n]), i);
    ByAppend(t.lost, Delivery(i, b, ws, q[n]), i);
    assert t.delivered + [] == t.delivered && t.lost + [] == t.lost;
  }

  /**
   * In every interleaving, whether its sends return or raise: after n answered sends a flush has
   * exactly the commands from the n-th on left, has delivered, in order, those whose own send
   * returned, and has lost the others.
   */
  lemma {:induction false} FlushInOrder(s: System, i: nat, run: seq<Event>)
    requires i < |s.tasks| && s.tasks[i].Flushing?
    ensures var q, t, answers := s.tasks[i].queue, Following(s, run), Answers(run, i);
            var n := if |answers| <= |q| then |answers| else |q|;
            i < |t.tasks| && Handles(t.tasks[i], s.tasks[i].board, s.tasks[i].ws) && FlushedTo(s, t, i, answers, n)
  {
    hide Next, By, Deliveries, FlushedTo, Answered;
    var q := s.tasks[i].queue;
    if run == [] {
      NothingAnswered(s, i);
    } else {
      var m := |run| - 1;
      var t, e, before, answers := Following(s, run[..m]), run[m], Answers(run[..m], i), Answers(run, i);
      FlushInOrder(s, i, run[..m]);
      var n := if |before| <= |q| then |before| else |q|;
      assert answers[..|before|] == before;
      SameAnswers(s, t, i, before, answers, n);
      assert Left(t.tasks[i]) == q[n..] by { FlushedLeft(s, t, i, before, n); }
      StepFlushes(t, e, i, s.tasks[i].board, s.tasks[i].ws);
      if (e == SendReturns(i) || e == SendRaises(i)) && n < |q| {
        FlushStep(s, t, Next(t, e), i, answers, n);
      } else {
        SameFlush(s, t, Next(t, e), i, answers, n);
      }
    }
  }

  lemma NothingAnswered(s: System, i: nat)
    requires i < |s.tasks| && s.tasks[i].Flushing?
    ensures FlushedTo(s, s, i, [], 0)
  {
    hide By;
    assert By(s.delivered, i) + [] == By(s.delivered, i) && By(s.lost, i) + [] == By(s.lost, i);
  }

  lemma FlushedLeft(s: System, t: System, i: nat, answers: seq<bool>, n: nat)
    requires i < |s.tasks| && s.tasks[i].Flushing? && i < |t.tasks| && n <= |answers|
    requires n <= |s.tasks[i].queue| && FlushedTo(s, t, i, answers, n)
    ensures Left(t.tasks[i]) == s.tasks[i].queue[n..]
  {
    hide By, Deliveries, Chosen;
  }

  lemma SameAnswers(s: System, t: System, i: nat, before: seq<bool>, answers: seq<bool>, n: nat)
    requires i < |s.tasks| && s.tasks[i].Flushing? && i < |t.tasks| && n <= |before| <= |answers|
    requires n <= |s.tasks[i].queue| && answers[..|before|] == before && FlushedTo(s, t, i, before, n)
    ensures FlushedTo(s, t, i, answers, n)
  {
    hide By, Deliveries, Chosen;
    assert answers[..n] == answers[..|before|][..n];
  }

  lemma SameFlush(s: System, t: System, u: System, i: nat, answers: seq<bool>, n: nat)
    requires i < |s.tasks| && s.tasks[i].Flushing? && i < |t.tasks| && i < |u.tasks| && n <= |answers|
    requires n <= |s.tasks[i].queue| && FlushedTo(s, t, i, answers, n)
    requires Left(u.tasks[i]) == Left(t.tasks[i])
    requires By(u.delivered, i) == By(t.delivered, i) && By(u.lost, i) == By(t.lost, i)
    ensures FlushedTo(s, u, i, answers, n)
  {
    hide By, Deliveries, Chosen;
  }

  /**
   * In every interleaving a reconnect deals with the whole queue, oldest first, on the new socket,
   * once that many of its sends were answered: it delivers exactly the commands whose own send
   * returned, all of them if none raised, and leaves none.
   */
  lemma ReconnectDelivers(s: System, i: nat, run: seq<Event>)
    requires i < |s.tasks| && s.tasks[i].Accepting?
    requires |Answers(run, i)| >= |Queue(s.channel, s.tasks[i].board)|
    ensures var b, ws, t := s.tasks[i].board, s.tasks[i].ws, Next(s, Accepted(i));
            var q, u := Queue(s.channel, b), Following(t, run);
            var answers := Answers(run, i)[..|q|];
            && Queue(t.channel, b) == [] && Registered(t.channel, b) == Some(ws)
            && i < |u.tasks| && Left(u.tasks[i]) == []
            && By(u.delivered, i) == By(s.delivered, i) + Deliveries(i, b, ws, Chosen(q, answers, true))
            && By(u.lost, i) == By(s.lost, i) + Deliveries(i, b, ws, Chosen(q, answers, false))
            && ((forall k :: 0 <= k < |q| ==> answers[k]) ==> Chosen(q, answers, true) == q)
  {
    hide By, Following, Deliveries;
    var t, q := Next(s, Accepted(i)), Queue(s.channel, s.tasks[i].board);
    FlushInOrder(t, i, run);
    assert q[..|q|] == q;
    AllChosen(q, Answers(run, i)[..|q|]);
  }

  lemma {:induction false} AllChosen(q: seq<Command>, answers: seq<bool>)
    requires |q| == |answers|
    ensures (forall k :: 0 <= k < |q| ==> answers[k]) ==> Chosen(q, answers, true) == q
  {
    if q != [] {
      var n := |q| - 1;
      AllChosen(q[..n], answers[..n]);
      assert q == q[..n] + [q[n]];
    }
  }

  // ---- Sockets ----

  predicate IsHandler(t: Task) {
    t.Accepting? || t.Flushing?
  }

  predicate Owns(s: System, b: Board, ws: Socket) {
    ws in s.sockets && s.sockets[ws] == b
  }

  predicate TasksOwn(s: System) {
    forall i :: 0 <= i < |s.tasks| && s.tasks[i] != Done ==> Owns(s, s.tasks[i].board, s.tasks[i].ws)
  }

  predicate HandlersOpen(s: System) {
    forall i :: 0 <= i < |s.tasks| && IsHandler(s.tasks[i]) ==> s.tasks[i].ws in s.open
  }

  predicate HandlersDiffer(s: System) {
    forall i, j :: 0 <= i < j < |s.tasks| && IsHandler(s.tasks[i]) && IsHandler(s.tasks[j]) ==>
      s.tasks[i].ws != s.tasks[j].ws
  }

  ghost predicate RegisteredOpen(s: System) {
    && (forall b :: b in s.channel.connections ==>
          s.channel.connections[b] in s.open && Owns(s, b, s.channel.connections[b]))
    && (forall i, b :: 0 <= i < |s.tasks| && s.tasks[i].Accepting? && b in s.channel.connections ==>
          s.channel.connections[b] != s.tasks[i].ws)
  }

  /**
   * A board's registered socket is its own and open, each open handler has a socket of its own,
   * and only sockets a board opened carry its commands.
   */
  ghost predicate Routed(s: System) {
    && (forall ws :: ws in s.open ==> ws in s.sockets)
    && TasksOwn(s) && HandlersOpen(s) && HandlersDiffer(s) && RegisteredOpen(s)
    && (forall i :: 0 <= i < |s.delivered| ==> Owns(s, s.delivered[i].board, s.delivered[i].ws))
  }

  /** The part about handlers and their sockets. */
  lemma StepHandlers(s: System, e: Event)
    requires Routed(s)
    ensures HandlersOpen(Next(s, e)) && HandlersDiffer(Next(s, e))
  {
    hide Queueing, Registering, Unregistering, Registered, RegisteredOpen, Queue;
    var t := Next(s, e);
    match e
    case Open(_, _) =>
    case Issue(_, _) =>
    case Accepted(i) =>
    case AcceptRaises(i) => EndHandler(s, i, t);
    case SendReturns(i) =>
    case SendRaises(i) =>
    case Close(i) => EndHandler(s, i, t);
  }

  lemma EndHandler(s: System, i: nat, t: System)
    requires HandlersOpen(s) && HandlersDiffer(s)
    requires t == s || (&& i < |s.tasks| && IsHandler(s.tasks[i]) && t.tasks == s.tasks[i := Done]
                        && t.open == s.open - {s.tasks[i].ws})
    ensures HandlersOpen(t) && HandlersDiffer(t)
  {
  }

  lemma StepTasks(s: System, e: Event)
    requires Routed(s)
    ensures TasksOwn(Next(s, e))
  {
    hide Queueing, Registering, Unregistering, Queue, HandlersOpen, HandlersDiffer;
  }

  lemma StepRegistered(s: System, e: Event)
    requires Routed(s)
    ensures RegisteredOpen(Next(s, e))
  {
    hide Queue;
  }

  lemma StepRoutes(s: System, e: Event)
    requires Routed(s)
    ensures Routed(Next(s, e))
  {
    hide TasksOwn, HandlersOpen, HandlersDiffer, RegisteredOpen;
    StepTasks(s, e);
    StepHandlers(s, e);
    StepRegistered(s, e);
    StepDeliveries(s, e);
  }

  lemma StepDeliveries(s: System, e: Event)
    requires Routed(s)
    ensures var t := Next(s, e);
            && (forall ws :: ws in t.open ==> ws in t.sockets)
            && (forall i :: 0 <= i < |t.delivered| ==> Owns(t, t.delivered[i].board, t.delivered[i].ws))
  {
    hide HandlersOpen, HandlersDiffer, RegisteredOpen;
  }

  lemma {:induction false} DeliveriesRouted(run: seq<Event>)
    ensures Routed(After(run))
  {
    hide Next;
    if run != [] {
      DeliveriesRouted(run[..|run| - 1]);
      StepRoutes(After(run[..|run| - 1]), run[|run| - 1]);
    }
  }

  // ---- Which socket is registered ----

  /** The board and the socket of a step that unregisters: a close, or a command whose send raised. */
  function Culprit(s: System, e: Event): Option<(Board, Socket)> {
    if e.Close? && e.i < |s.tasks| && Listening(s.tasks[e.i]) then Some((s.tasks[e.i].board, s.tasks[e.i].ws))
    else if e.SendRaises? && e.i < |s.tasks| && s.tasks[e.i].Sending? then
      Some((s.tasks[e.i].board, s.tasks[e.i].ws))
    else None
  }

  predicate Unregisters(s: System, e: Event, b: Board) {
    Culprit(s, e).Some? && Culprit(s, e).value.0 == b
  }

  /** The socket of `b` that a step registers. */
  function Connects(s: System, e: Event, b: Board): Option<Socket> {
    if e.Accepted? && e.i < |s.tasks| && s.tasks[e.i].Accepting? && s.tasks[e.i].board == b then Some(s.tasks[e.i].ws)
    else None
  }

  lemma StepRegisters(s: System, e: Event, b: Board)
    ensures Registered(Next(s, e).channel, b) ==
            if Unregisters(s, e, b) then None
            else if Connects(s, e, b).Some? then Connects(s, e, b) else Registered(s.channel, b)
  {
  }

  /**
   * A registered socket is unregistered without a newer one in its place exactly by the close of
   * some socket of its board, or by a command whose send on some socket of its board raised; it
   * is then still open exactly when that was not its own close.
   */
  lemma StrandedExactly(run: seq<Event>, e: Event, b: Board, ws: Socket)
    requires Registered(After(run).channel, b) == Some(ws)
    ensures var s, t := After(run), Next(After(run), e);
            && ws in s.open
            && (Registered(t.channel, b) == None <==> Unregisters(s, e, b))
            && (Registered(t.channel, b) == None ==>
                  (ws in t.open <==> e.SendRaises? || Culprit(s, e).value.1 != ws))
  {
    hide Following;
    DeliveriesRouted(run);
    StepRegisters(After(run), e, b);
  }

  /** The socket of `b` accepted last in a run. */
  function Current(run: seq<Event>, b: Board): Option<Socket> {
    if run == [] then None
    else
      var before, e := run[..|run| - 1], run[|run| - 1];
      if Connects(After(before), e, b).Some? then Connects(After(before), e, b) else Current(before, b)
  }

  /** Since that accept some socket of `b` was closed or failed a command. */
  predicate CutOff(run: seq<Event>, b: Board) {
    if run == [] then false
    else
      var before, e := run[..|run| - 1], run[|run| - 1];
      Unregisters(After(before), e, b) || (Connects(After(before), e, b) == None && CutOff(before, b))
  }

  /**
   * In every run a board is reached on the socket accepted last, unless some socket of the board,
   * an older one included, was closed or failed a command since.
   */
  lemma {:induction false} RegisteredIsCurrent(run: seq<Event>, b: Board)
    ensures Registered(After(run).channel, b) == if CutOff(run, b) then None else Current(run, b)
    ensures Registered(After(run).channel, b).Some? ==> Registered(After(run).channel, b).value in After(run).open
  {
    hide Next, Unregisters, Connects;
    DeliveriesRouted(run);
    if run != [] {
      RegisteredIsCurrent(run[..|run| - 1], b);
      StepRegisters(After(run[..|run| - 1]), run[|run| - 1], b);
    }
  }

  lemma Unroll(run: seq<Event>, e: Event)
    ensures After(run + [e]) == Next(After(run), e)
  {
    hide Next;
    assert (run + [e])[..|run|] == run;
  }

  /** Two connections of a board, the older one still there. */
  lemma TwoSockets(b: Board, stale: Socket, live: Socket) returns (run: seq<Event>)
    requires stale != live
    ensures After(run) == System(Channel(map[b := live], map[]), [Flushing(b, stale, []), Flushing(b, live, [])],
                                 map[stale := b, live := b], {stale, live}, [], [], [])
  {
    run := [];
    Unroll(run, Open(b, stale)); run := run + [Open(b, stale)];
    Unroll(run, Accepted(0)); run := run + [Accepted(0)];
    Unroll(run, Open(b, live)); run := run + [Open(b, live)];
    Unroll(run, Accepted(1)); run := run + [Accepted(1)];
  }

  /**
   * The close of an old socket unregisters the board's live one: the next command is queued
   * although the newer socket is open.
   */
  lemma StaleCloseStrands(b: Board, stale: Socket, live: Socket, cmd: Command) returns (run: seq<Event>)
    requires stale != live
    ensures var s := After(run);
            && live in s.open && stale !in s.open && Current(run, b) == Some(live)
            && Registered(s.channel, b) == None && Queue(s.channel, b) == [cmd]
  {
    hide Current, CutOff, Following;
    run := TwoSockets(b, stale, live);
    RegisteredIsCurrent(run, b);
    LastAccepted(run, Close(0), b);
    Unroll(run, Close(0)); run := run + [Close(0)];
    LastAccepted(run, Issue(b, cmd), b);
    Unroll(run, Issue(b, cmd)); run := run + [Issue(b, cmd)];
  }

  lemma LastAccepted(run: seq<Event>, e: Event, b: Board)
    requires !e.Accepted?
    ensures Current(run + [e], b) == Current(run, b)
  {
    hide Next;
    assert (run + [e])[..|run|] == run;
  }

  /**
   * So does a command that fails on an old socket while the board reconnects: the failed command
   * and the next one are queued although the newer socket is open.
   */
  lemma StaleSendStrands(b: Board, stale: Socket, live: Socket, failed: Command, cmd: Command)
    returns (run: seq<Event>)
    requires stale != live
    ensures var s := After(run);
            && live in s.open && Current(run, b) == Some(live)
            && Registered(s.channel, b) == None && Queue(s.channel, b) == [failed, cmd]
  {
    hide Current, CutOff, Following;
    run := FailingSend(b, stale, live, failed);
    RegisteredIsCurrent(run, b);
    LastAccepted(run, SendRaises(1), b);
    Unroll(run, SendRaises(1)); run := run + [SendRaises(1)];
    LastAccepted(run, Issue(b, cmd), b);
    Unroll(run, Issue(b, cmd)); run := run + [Issue(b, cmd)];
  }

  /** A command is being sent on the old socket of a board that has connected again. */
  lemma FailingSend(b: Board, stale: Socket, live: Socket, failed: Command) returns (run: seq<Event>)
    requires stale != live
    ensures After(run) == System(
      Channel(map[b := live], map[]), [Flushing(b, stale, []), Sending(b, stale, failed), Flushing(b, live, [])],
      map[stale := b, live := b], {stale, live}, [(b, failed)], [], [])
  {
    run := [];
    Unroll(run, Open(b, stale)); run := run + [Open(b, stale)];
    Unroll(run, Accepted(0)); run := run + [Accepted(0)];
    Unroll(run, Issue(b, failed)); run := run + [Issue(b, failed)];
    Unroll(run, Open(b, live)); run := run + [Open(b, live)];
    Unroll(run, Accepted(2)); run := run + [Accepted(2)];
  }
}
