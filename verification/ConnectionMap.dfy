/**
 The synchronous server's bookkeeping of accepted connections, as a state machine: the listener
 thread inserts, one handler thread per connection ends by reporting its descriptor, the reaper
 thread removes and closes. The system may hand out a descriptor again as soon as it is closed.
 Spawning a thread is taken to succeed.
 */
module ConnectionMap {

  type Fd = int

  type ConnId = nat

  datatype Listener = Accepting | Accepted(conn: ConnId) | Spawned(conn: ConnId) | Inserted(conn: ConnId)

  // A handler thread: not spawned yet; serving; its reader and response threads joined; the
  // listener's go-ahead received; its descriptor sent to the reaper, which is its last action.
  datatype Handler = Unborn | Serving | Joined | Released | Reported

  datatype Reaper = Idle | Reaping(conn: ConnId)

  datatype Connection = Connection(
    fd: Fd,
    handler: Handler,
    readerAlive: bool,
    responderAlive: bool,
    goAhead: bool,       // the listener's message, sent and not yet received
    closes: nat)         // how often the reaper has closed the descriptor

  datatype State = State(
    open: map<Fd, ConnId>,             // the system's open descriptors and whose they are
    conns: map<ConnId, Connection>,    // every connection ever accepted
    registered: map<Fd, ConnId>,       // the server's connection map
    listener: Listener,
    queue: seq<Fd>,                    // the channel to the reaper
    reaper: Reaper)

  datatype ListenerOp = Accept(c: ConnId, fd: Fd) | Reject | Spawn | Insert | GoAhead

  datatype ThreadOp = EndReader | EndResponder | Join | ReceiveGoAhead | Report

  datatype ReaperOp = Take | Close

  datatype Action = ByListener(op: ListenerOp) | ByThread(c: ConnId, threadOp: ThreadOp) | ByReaper(reaperOp: ReaperOp)

  ghost predicate Init(s: State) {
    s == State(map[], map[], map[], Accepting, [], Idle)
  }

  function Update(s: State, c: ConnId, conn: Connection): State {
    s.(conns := s.conns[c := conn])
  }

  // The lock of the connection map is held by the listener from the insertion to its go-ahead, and by
  // the reaper from the removal through the join and the close.

  ghost predicate ListenerNext(s: State, op: ListenerOp, t: State) {
    if op.Accept? then
      && s.listener == Accepting && op.fd !in s.open && op.c !in s.conns
      && t == s.(open := s.open[op.fd := op.c], listener := Accepted(op.c),
                 conns := s.conns[op.c := Connection(op.fd, Unborn, false, false, false, 0)])
    else
      && !s.listener.Accepting? && s.listener.conn in s.conns
      && var c := s.listener.conn;
         var conn := s.conns[c];
         if op.Reject? then  // the accept hook refused the connection
           s.listener.Accepted? && t == s.(open := s.open - {conn.fd}, listener := Accepting, conns := s.conns - {c})
         else if op.Spawn? then
           && s.listener.Accepted?
           && t == Update(s, c, conn.(handler := Serving, readerAlive := true, responderAlive := true))
                     .(listener := Spawned(c))
         else if op.Insert? then
           && s.listener.Spawned? && s.reaper == Idle
           && t == s.(registered := s.registered[conn.fd := c], listener := Inserted(c))
         else
           s.listener.Inserted? && t == Update(s, c, conn.(goAhead := true)).(listener := Accepting)
  }

  /** What a thread of connection `c` does to its record. */
  predicate ThreadMoves(conn: Connection, op: ThreadOp, next: Connection) {
    match op
    case EndReader => conn.readerAlive && next == conn.(readerAlive := false)
    case EndResponder => conn.responderAlive && next == conn.(responderAlive := false)
    case Join => conn.handler == Serving && !conn.readerAlive && !conn.responderAlive && next == conn.(handler := Joined)
    case ReceiveGoAhead => conn.handler == Joined && conn.goAhead && next == conn.(handler := Released, goAhead := false)
    case Report => conn.handler == Released && next == conn.(handler := Reported)
  }

  ghost predicate ThreadNext(s: State, c: ConnId, op: ThreadOp, t: State) {
    && c in s.conns && c in t.conns && ThreadMoves(s.conns[c], op, t.conns[c])
    && t == Update(s, c, t.conns[c]).(queue := if op.Report? then s.queue + [s.conns[c].fd] else s.queue)
  }

  ghost predicate ReaperNext(s: State, op: ReaperOp, t: State) {
    match op
    case Take =>
      && s.reaper == Idle && s.queue != [] && !s.listener.Inserted?
      && t == s.(queue := s.queue[1..], registered := s.registered - {s.queue[0]},
                 reaper := if s.queue[0] in s.registered then Reaping(s.registered[s.queue[0]]) else Idle)
    case Close =>  // joins the handler thread, then closes the descriptor
      && s.reaper.Reaping? && s.reaper.conn in s.conns && s.conns[s.reaper.conn].handler == Reported
      && var c := s.reaper.conn;
         t == Update(s, c, s.conns[c].(closes := s.conns[c].closes + 1))
                .(open := s.open - {s.conns[c].fd}, reaper := Idle)
  }

  ghost predicate Next(s: State, a: Action, t: State) {
    match a
    case ByListener(op) => ListenerNext(s, op, t)
    case ByThread(c, op) => ThreadNext(s, c, op, t)
    case ByReaper(op) => ReaperNext(s, op, t)
  }

  datatype Run = Run(states: seq<State>, actions: seq<Action>)

  ghost predicate Step(r: Run, i: nat) {
    i < |r.actions| && |r.states| == |r.actions| + 1 && Next(r.states[i], r.actions[i], r.states[i + 1])
  }

  ghost predicate IsRun(r: Run) {
    && |r.states| == |r.actions| + 1 && Init(r.states[0])
    && forall i :: 0 <= i < |r.actions| ==> Step(r, i)
  }

  // -------------------------------------------------------------- invariant

  predicate HeldByListener(s: State, c: ConnId) {
    s.listener == Accepted(c) || s.listener == Spawned(c)
  }

  /** Registered from its insertion until the reaper takes it. */
  ghost predicate Registered(s: State, c: ConnId)
    requires c in s.conns
  {
    s.conns[c].fd in s.registered && s.registered[s.conns[c].fd] == c
  }

  /** Every open descriptor belongs to one connection that is not closed, and the other way round. */
  ghost predicate OpenInv(s: State) {
    && (forall fd :: fd in s.open ==> OwnedInv(s, fd))
    && (forall c :: c in s.conns && s.conns[c].closes == 0 ==> HoldsOpen(s, c))
  }

  ghost predicate OwnedInv(s: State, fd: Fd)
    requires fd in s.open
  {
    s.open[fd] in s.conns && s.conns[s.open[fd]].fd == fd && s.conns[s.open[fd]].closes == 0
  }

  /** The connection's descriptor is open and its own. */
  ghost predicate HoldsOpen(s: State, c: ConnId)
    requires c in s.conns
  {
    s.conns[c].fd in s.open && s.open[s.conns[c].fd] == c
  }

  /** An entry of the connection map is keyed by its own connection's descriptor. */
  ghost predicate EntryInv(s: State, fd: Fd)
    requires fd in s.registered
  {
    var c := s.registered[fd];
    && c in s.conns && s.conns[c].fd == fd && s.conns[c].closes == 0
    && !HeldByListener(s, c) && s.reaper != Reaping(c)
  }

  ghost predicate MapInv(s: State) {
    && (forall fd :: fd in s.registered ==> EntryInv(s, fd))
    && (forall c :: c in s.conns && s.conns[c].closes == 0 && !HeldByListener(s, c) && s.reaper != Reaping(c) ==>
          Registered(s, c))
  }

  /** A reported descriptor is that of a registered connection whose handler is done. */
  ghost predicate ReportInv(s: State, fd: Fd) {
    && fd in s.registered && s.registered[fd] in s.conns
    && s.conns[s.registered[fd]].handler == Reported
  }

  ghost predicate ToBeReaped(s: State, c: ConnId)
    requires c in s.conns
  {
    s.conns[c].handler == Reported && s.conns[c].closes == 0 && s.reaper != Reaping(c)
  }

  ghost predicate QueueInv(s: State) {
    && (forall i :: 0 <= i < |s.queue| ==> ReportInv(s, s.queue[i]))
    && (forall i, j :: 0 <= i < j < |s.queue| ==> s.queue[i] != s.queue[j])
    && (forall c :: c in s.conns && ToBeReaped(s, c) ==> s.conns[c].fd in s.queue)
  }

  predicate GoAheadGiven(conn: Connection) {
    conn.goAhead || conn.handler == Released || conn.handler == Reported
  }

  ghost predicate ConnInv(s: State, c: ConnId)
    requires c in s.conns
  {
    var conn := s.conns[c];
    && conn.closes <= 1
    && (conn.handler == Unborn <==> s.listener == Accepted(c))
    && (conn.readerAlive || conn.responderAlive ==> conn.handler == Serving)
    && (conn.closes == 1 || s.reaper == Reaping(c) ==> conn.handler == Reported)
    && (s.reaper == Reaping(c) ==> conn.closes == 0)
    // the go-ahead is sent once, after the insertion, and received before the report
    && (conn.goAhead ==> conn.handler == Serving || conn.handler == Joined)
    && (GoAheadGiven(conn) <==> !HeldByListener(s, c) && s.listener != Inserted(c))
  }

  ghost predicate Inv(s: State) {
    && OpenInv(s) && MapInv(s) && QueueInv(s)
    && (forall c :: c in s.conns ==> ConnInv(s, c))
    && (!s.listener.Accepting? ==> s.listener.conn in s.conns && s.conns[s.listener.conn].closes == 0)
    && (s.reaper.Reaping? ==> s.reaper.conn in s.conns)
  }

  // ------------------------------------------------- the listener keeps it

  /** An insertion never overwrites an entry. */
  lemma InsertIsFresh(s: State, t: State)
    requires Inv(s) && ListenerNext(s, Insert, t)
    ensures s.conns[s.listener.conn].fd !in s.registered
  {
    assert s.open[s.conns[s.listener.conn].fd] == s.listener.conn;
  }

  lemma AcceptKeepsOpen(s: State, c: ConnId, fd: Fd, t: State)
    requires OpenInv(s) && ListenerNext(s, Accept(c, fd), t)
    ensures OpenInv(t)
  {
    forall e | e in t.open
      ensures OwnedInv(t, e)
    {
      assert e in s.open ==> OwnedInv(s, e);
    }
    forall d | d in t.conns && t.conns[d].closes == 0
      ensures HoldsOpen(t, d)
    {
      assert d in s.conns ==> HoldsOpen(s, d);
    }
  }

  lemma RejectKeepsOpen(s: State, t: State)
    requires Inv(s) && ListenerNext(s, Reject, t)
    ensures OpenInv(t)
  {
    assert HoldsOpen(s, s.listener.conn);
    forall e | e in t.open
      ensures OwnedInv(t, e)
    {
      assert OwnedInv(s, e);
    }
    forall d | d in t.conns && t.conns[d].closes == 0
      ensures HoldsOpen(t, d)
    {
      assert HoldsOpen(s, d);
    }
  }

  lemma ListenerKeepsOpen(s: State, op: ListenerOp, t: State)
    requires Inv(s) && ListenerNext(s, op, t)
    ensures OpenInv(t)
  {
    if op.Accept? {
      AcceptKeepsOpen(s, op.c, op.fd, t);
    } else if op.Reject? {
      RejectKeepsOpen(s, t);
    } else {
      forall e | e in t.open
        ensures OwnedInv(t, e)
      {
        assert OwnedInv(s, e);
      }
      forall d | d in t.conns && t.conns[d].closes == 0
        ensures HoldsOpen(t, d)
      {
        assert HoldsOpen(s, d);
      }
    }
  }

  lemma ListenerKeepsMap(s: State, op: ListenerOp, t: State)
    requires Inv(s) && ListenerNext(s, op, t)
    ensures MapInv(t)
  {
    if op.Insert? {
      InsertIsFresh(s, t);
    }
    forall fd | fd in t.registered
      ensures EntryInv(t, fd)
    {
      assert fd in s.registered ==> EntryInv(s, fd);
    }
    forall c | c in t.conns && t.conns[c].closes == 0 && !HeldByListener(t, c) && t.reaper != Reaping(c)
      ensures Registered(t, c)
    {
      if !HeldByListener(s, c) {
        assert Registered(s, c);
      }
    }
  }

  lemma ListenerKeepsQueue(s: State, op: ListenerOp, t: State)
    requires Inv(s) && ListenerNext(s, op, t)
    ensures QueueInv(t)
  {
    if op.Insert? {
      InsertIsFresh(s, t);
    }
    forall i | 0 <= i < |t.queue|
      ensures ReportInv(t, t.queue[i])
    {
      assert ReportInv(s, s.queue[i]) && EntryInv(s, s.queue[i]);
    }
    forall c | c in t.conns && ToBeReaped(t, c)
      ensures t.conns[c].fd in t.queue
    {
      assert ToBeReaped(s, c);
    }
  }

  lemma AcceptKeepsConn(s: State, c: ConnId, fd: Fd, t: State, d: ConnId)
    requires Inv(s) && ListenerNext(s, Accept(c, fd), t) && d in t.conns
    ensures ConnInv(t, d)
  {
    assert d in s.conns ==> ConnInv(s, d);
  }

  lemma ListenerKeepsConn(s: State, op: ListenerOp, t: State, c: ConnId)
    requires Inv(s) && ListenerNext(s, op, t) && c in t.conns
    ensures ConnInv(t, c)
  {
    if op.Accept? {
      AcceptKeepsConn(s, op.c, op.fd, t, c);
    } else {
      assert ConnInv(s, c) && ConnInv(s, s.listener.conn);
    }
  }

  // ---------------------------------------------------- the threads keep it

  lemma ThreadFrame(s: State, c: ConnId, op: ThreadOp, t: State)
    requires ThreadNext(s, c, op, t)
    ensures t.conns == s.conns[c := t.conns[c]]
    ensures t.conns[c].fd == s.conns[c].fd && t.conns[c].closes == s.conns[c].closes
    ensures t.open == s.open && t.registered == s.registered && t.listener == s.listener && t.reaper == s.reaper
    ensures s.conns[c].handler == Reported ==> t.conns[c].handler == Reported
    ensures t.conns[c].handler == Reported ==> s.conns[c].handler == Reported || op.Report?
  {
  }

  lemma ThreadKeepsOpen(s: State, c: ConnId, op: ThreadOp, t: State)
    requires Inv(s) && ThreadNext(s, c, op, t)
    ensures OpenInv(t) && MapInv(t)
  {
    ThreadFrame(s, c, op, t);
    forall fd | fd in t.open
      ensures OwnedInv(t, fd)
    {
      assert OwnedInv(s, fd);
    }
    forall d | d in t.conns && t.conns[d].closes == 0
      ensures HoldsOpen(t, d)
    {
      assert HoldsOpen(s, d);
    }
    forall fd | fd in t.registered
      ensures EntryInv(t, fd)
    {
      assert EntryInv(s, fd);
    }
    forall d | d in t.conns && t.conns[d].closes == 0 && !HeldByListener(t, d) && t.reaper != Reaping(d)
      ensures Registered(t, d)
    {
      assert Registered(s, d);
    }
  }

  lemma ReportIsFresh(s: State, c: ConnId)
    requires Inv(s) && c in s.conns && s.conns[c].handler == Released
    ensures Registered(s, c) && s.conns[c].fd !in s.queue
  {
    assert ConnInv(s, c);
    assert Registered(s, c);
  }

  lemma ThreadKeepsQueue(s: State, c: ConnId, op: ThreadOp, t: State)
    requires Inv(s) && ThreadNext(s, c, op, t)
    ensures QueueInv(t)
  {
    ThreadFrame(s, c, op, t);
    if op.Report? {
      ReportIsFresh(s, c);
      assert t.queue[|s.queue|] == s.conns[c].fd;
    }
    forall i | 0 <= i < |t.queue|
      ensures ReportInv(t, t.queue[i])
    {
      assert i < |s.queue| ==> ReportInv(s, s.queue[i]);
    }
    forall d | d in t.conns && ToBeReaped(t, d)
      ensures t.conns[d].fd in t.queue
    {
      if ToBeReaped(s, d) {
        assert s.conns[d].fd in s.queue;
      } else {
        assert op.Report? && d == c;
      }
    }
  }

  lemma ThreadKeepsConn(s: State, c: ConnId, op: ThreadOp, t: State, d: ConnId)
    requires Inv(s) && ThreadNext(s, c, op, t) && d in t.conns
    ensures ConnInv(t, d)
  {
    assert ConnInv(s, d);
  }

  // ------------------------------------------------------ the reaper keeps it

  /** What the reaper takes from its queue is the entry of a connection whose handler is done. */
  lemma TakenIsReported(s: State)
    requires Inv(s) && s.queue != []
    ensures ReportInv(s, s.queue[0]) && EntryInv(s, s.queue[0]) && ConnInv(s, s.registered[s.queue[0]])
  {
    assert ReportInv(s, s.queue[0]);
  }

  lemma ReaperKeepsOpen(s: State, op: ReaperOp, t: State)
    requires Inv(s) && ReaperNext(s, op, t)
    ensures OpenInv(t)
  {
    if op.Close? {
      assert ConnInv(s, s.reaper.conn) && HoldsOpen(s, s.reaper.conn);
    }
    forall fd | fd in t.open
      ensures OwnedInv(t, fd)
    {
      assert OwnedInv(s, fd);
    }
    forall c | c in t.conns && t.conns[c].closes == 0
      ensures HoldsOpen(t, c)
    {
      assert HoldsOpen(s, c);
    }
  }

  lemma ReaperKeepsMap(s: State, op: ReaperOp, t: State)
    requires Inv(s) && ReaperNext(s, op, t)
    ensures MapInv(t)
  {
    if op.Take? {
      TakenIsReported(s);
    }
    forall fd | fd in t.registered
      ensures EntryInv(t, fd)
    {
      assert EntryInv(s, fd);
    }
    forall c | c in t.conns && t.conns[c].closes == 0 && !HeldByListener(t, c) && t.reaper != Reaping(c)
      ensures Registered(t, c)
    {
      assert ConnInv(s, c);
      assert Registered(s, c);
    }
  }

  lemma ReaperKeepsQueue(s: State, op: ReaperOp, t: State)
    requires Inv(s) && ReaperNext(s, op, t)
    ensures QueueInv(t)
  {
    if op.Take? {
      TakenIsReported(s);
      assert s.queue == [s.queue[0]] + t.queue;
    }
    forall i | 0 <= i < |t.queue|
      ensures ReportInv(t, t.queue[i])
    {
      var k := if op.Take? then i + 1 else i;
      assert t.queue[i] == s.queue[k] && ReportInv(s, s.queue[k]);
    }
    forall c | c in t.conns && ToBeReaped(t, c)
      ensures t.conns[c].fd in t.queue
    {
      assert ConnInv(s, c);
      assert ToBeReaped(s, c) && Registered(s, c);
    }
  }

  lemma ReaperKeepsConn(s: State, op: ReaperOp, t: State, c: ConnId)
    requires Inv(s) && ReaperNext(s, op, t) && c in t.conns
    ensures ConnInv(t, c)
  {
    assert ConnInv(s, c);
    if op.Take? {
      TakenIsReported(s);
    }
  }

  // ---------------------------------------------------------------- every run

  lemma InvKept(s: State, a: Action, t: State)
    requires Inv(s) && Next(s, a, t)
    ensures Inv(t)
  {
    match a {
      case ByListener(op) =>
        ListenerKeepsOpen(s, op, t);
        ListenerKeepsMap(s, op, t);
        ListenerKeepsQueue(s, op, t);
      case ByThread(c, op) =>
        ThreadFrame(s, c, op, t);
        ThreadKeepsOpen(s, c, op, t);
        ThreadKeepsQueue(s, c, op, t);
      case ByReaper(op) =>
        ReaperKeepsOpen(s, op, t);
        ReaperKeepsMap(s, op, t);
        ReaperKeepsQueue(s, op, t);
    }
    forall c | c in t.conns
      ensures ConnInv(t, c)
    {
      ConnInvKept(s, a, t, c);
    }
    HeldIsKept(s, a, t);
  }

  lemma ConnInvKept(s: State, a: Action, t: State, c: ConnId)
    requires Inv(s) && Next(s, a, t) && c in t.conns
    ensures ConnInv(t, c)
  {
    match a {
      case ByListener(op) => ListenerKeepsConn(s, op, t, c);
      case ByThread(d, op) => ThreadKeepsConn(s, d, op, t, c);
      case ByReaper(op) => ReaperKeepsConn(s, op, t, c);
    }
  }

  lemma HeldIsKept(s: State, a: Action, t: State)
    requires Inv(s) && Next(s, a, t)
    ensures !t.listener.Accepting? ==> t.listener.conn in t.conns && t.conns[t.listener.conn].closes == 0
    ensures t.reaper.Reaping? ==> t.reaper.conn in t.conns
  {
    if a.ByReaper? && a.reaperOp.Take? {
      TakenIsReported(s);
    } else if a.ByReaper? {
      assert ConnInv(s, s.reaper.conn);
      assert !s.listener.Accepting? ==> ConnInv(s, s.listener.conn);
    } else if a == ByListener(Reject) && s.reaper.Reaping? {
      assert ConnInv(s, s.reaper.conn);
    }
  }

  lemma InvStep(r: Run, i: nat)
    requires IsRun(r) && i < |r.actions|
    ensures Inv(r.states[i]) ==> Inv(r.states[i + 1])
  {
    assert Step(r, i);
    if Inv(r.states[i]) {
      InvKept(r.states[i], r.actions[i], r.states[i + 1]);
    }
  }

  lemma {:induction false} InvHolds(r: Run, i: nat)
    requires IsRun(r) && i < |r.states|
    ensures Inv(r.states[i])
  {
    if i > 0 {
      InvHolds(r, i - 1);
      InvStep(r, i - 1);
    }
  }

  // --------------------------------------------------------------- theorems

  /** In every run: keys are distinct open descriptors of their own connections, and inserts are fresh. */
  lemma MapIsFaithful(r: Run, i: nat)
    requires IsRun(r) && i < |r.states|
    ensures var s := r.states[i];
            forall fd :: fd in s.registered ==>
              fd in s.open && s.registered[fd] == s.open[fd] && s.registered[fd] in s.conns
    ensures var s := r.states[i];
            i < |r.actions| && r.actions[i] == ByListener(Insert) ==>
              && s.listener.Spawned? && s.listener.conn in s.conns
              && s.conns[s.listener.conn].fd !in s.registered
  {
    InvHolds(r, i);
    var s := r.states[i];
    forall fd | fd in s.registered
      ensures fd in s.open && s.registered[fd] == s.open[fd] && s.registered[fd] in s.conns
    {
      assert EntryInv(s, fd) && HoldsOpen(s, s.registered[fd]);
    }
    if i < |r.actions| && r.actions[i] == ByListener(Insert) {
      assert Step(r, i);
      InsertIsFresh(s, r.states[i + 1]);
    }
  }

  /** No thread of a connection is alive once its descriptor may belong to another connection. */
  lemma NoUseAfterClose(r: Run, i: nat, c: ConnId)
    requires IsRun(r) && i < |r.states| && c in r.states[i].conns
    requires var conn := r.states[i].conns[c];
             conn.readerAlive || conn.responderAlive || conn.handler != Reported
    ensures HoldsOpen(r.states[i], c) && r.states[i].conns[c].closes == 0
  {
    InvHolds(r, i);
    assert ConnInv(r.states[i], c);
  }

  /** The reaper finds each reported descriptor, and what it finds is the connection that reported it. */
  lemma TakeFindsItsOwn(r: Run, i: nat)
    requires IsRun(r) && i < |r.actions| && r.actions[i] == ByReaper(Take)
    ensures var s, t := r.states[i], r.states[i + 1];
            && t.reaper.Reaping? && t.reaper.conn in s.conns && s.queue != []
            && (var conn := s.conns[t.reaper.conn];
                && conn.fd == s.queue[0] && conn.closes == 0
                && conn.handler == Reported && !conn.readerAlive && !conn.responderAlive)
            && forall fd :: fd in s.registered && s.registered[fd] != t.reaper.conn ==>
                 fd in t.registered && t.registered[fd] == s.registered[fd]
  {
    InvHolds(r, i);
    var s, t := r.states[i], r.states[i + 1];
    assert Step(r, i);
    TakenIsReported(s);
  }

  /** The reaper closes a descriptor that is open and its connection's own, for the first and only time. */
  lemma ClosedExactlyOnce(r: Run, i: nat)
    requires IsRun(r) && i < |r.states|
    ensures forall c :: c in r.states[i].conns ==>
              r.states[i].conns[c].closes == (if HoldsOpen(r.states[i], c) then 0 else 1)
    ensures i < |r.actions| && r.actions[i] == ByReaper(Close) ==>
              && r.states[i].reaper.Reaping? && r.states[i].reaper.conn in r.states[i].conns
              && HoldsOpen(r.states[i], r.states[i].reaper.conn)
              && r.states[i + 1].open == r.states[i].open - {r.states[i].conns[r.states[i].reaper.conn].fd}
  {
    InvHolds(r, i);
    var s := r.states[i];
    forall c | c in s.conns
      ensures s.conns[c].closes == (if HoldsOpen(s, c) then 0 else 1)
    {
      assert ConnInv(s, c);
      assert HoldsOpen(s, c) ==> OwnedInv(s, s.conns[c].fd);
    }
    if i < |r.actions| && r.actions[i] == ByReaper(Close) {
      assert Step(r, i);
      assert ConnInv(s, s.reaper.conn);
    }
  }

  /** The steps that bring a connection to its close. */
  predicate IsCleanup(a: Action) {
    match a
    case ByListener(op) => op.Spawn? || op.Insert? || op.GoAhead?
    case ByThread(_, op) => op.Join? || op.ReceiveGoAhead? || op.Report?
    case ByReaper(_) => true
  }

  /** No descriptor leaks: as long as a connection whose threads have ended is open, some thread can go on. */
  lemma CleanupNeverStuck(r: Run, i: nat, c: ConnId) returns (a: Action, t: State)
    requires IsRun(r) && i < |r.states| && c in r.states[i].conns
    requires var conn := r.states[i].conns[c]; !conn.readerAlive && !conn.responderAlive && conn.closes == 0
    ensures IsCleanup(a) && Next(r.states[i], a, t)
  {
    var s := r.states[i];
    InvHolds(r, i);
    assert ConnInv(s, c);
    if s.reaper.Reaping? {
      var d := s.reaper.conn;
      assert ConnInv(s, d);
      a := ByReaper(Close);
      t := Update(s, d, s.conns[d].(closes := s.conns[d].closes + 1))
             .(open := s.open - {s.conns[d].fd}, reaper := Idle);
    } else if !s.listener.Accepting? {
      var op := ListenerGoesOn(s);
      a := ByListener(op);
      t :| ListenerNext(s, op, t);
    } else if s.queue != [] {
      a := ByReaper(Take);
      t := s.(queue := s.queue[1..], registered := s.registered - {s.queue[0]},
              reaper := if s.queue[0] in s.registered then Reaping(s.registered[s.queue[0]]) else Idle);
    } else {
      assert !ToBeReaped(s, c);
      var op, conn := ThreadGoesOn(s.conns[c]);
      a := ByThread(c, op);
      t := Update(s, c, conn).(queue := if op.Report? then s.queue + [s.conns[c].fd] else s.queue);
    }
  }

  lemma ListenerGoesOn(s: State) returns (op: ListenerOp)
    requires !s.listener.Accepting? && s.listener.conn in s.conns && s.reaper == Idle
    ensures op.Spawn? || op.Insert? || op.GoAhead?
    ensures exists t :: ListenerNext(s, op, t)
  {
    var c := s.listener.conn;
    var conn := s.conns[c];
    if s.listener.Accepted? {
      op := Spawn;
      assert ListenerNext(s, op, Update(s, c, conn.(handler := Serving, readerAlive := true, responderAlive := true))
                                   .(listener := Spawned(c)));
    } else if s.listener.Spawned? {
      op := Insert;
      assert ListenerNext(s, op, s.(registered := s.registered[conn.fd := c], listener := Inserted(c)));
    } else {
      op := GoAhead;
      assert ListenerNext(s, op, Update(s, c, conn.(goAhead := true)).(listener := Accepting));
    }
  }

  lemma ThreadGoesOn(conn: Connection) returns (op: ThreadOp, next: Connection)
    requires !conn.readerAlive && !conn.responderAlive && conn.handler != Unborn && conn.handler != Reported
    requires conn.handler == Joined ==> conn.goAhead
    ensures (op.Join? || op.ReceiveGoAhead? || op.Report?) && ThreadMoves(conn, op, next)
  {
    if conn.handler == Serving {
      op, next := Join, conn.(handler := Joined);
    } else if conn.handler == Joined {
      op, next := ReceiveGoAhead, conn.(handler := Released, goAhead := false);
    } else {
      op, next := Report, conn.(handler := Reported);
    }
  }
}
