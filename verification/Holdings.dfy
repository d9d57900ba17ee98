/** What the steps of RefCounts are for: who has which calls and connections, without any counting.
    Each step is proved to move them as it should: calls go through the queues of a connection in
    their order, and from there to the call's frame, and new objects are such as nobody has. */
module Holdings {
  import opened RefCounts

  /** The two queues of a connection. */
  datatype Queues = Queues(sendq: seq<nat>, recvq: seq<nat>)

  /** Calls with their creators, in rings and in queues; connections that are open, being closed,
      watched, or have a socket; and what core_loop is at work on. */
  datatype Owners = Owners(
    creators: multiset<nat>, rings: multiset<nat>, conns: map<nat, Queues>,
    open: set<nat>, closing: set<nat>, watched: set<nat>, sockets: set<nat>, busy: int, frame: Frame)

  predicate Exists(s: State, k: nat) {
    k < |s.conns| && !s.conns[k].life.Freed?
  }

  function Of(s: State): Owners {
    var conns := map k: nat | k < |s.conns| && Exists(s, k) :: Queues(s.conns[k].sendq, s.conns[k].recvq);
    var open := set k: nat | k < |s.conns| && s.conns[k].life.Open?;
    var watched := set k: nat | k < |s.conns| && s.conns[k].watchdog;
    var sockets := set k: nat | k < |s.conns| && s.conns[k].socket;
    Owners(s.creators, s.rings, conns, open, s.closing, watched, sockets, s.busy, s.frame)
  }

  predicate Has(o: Owners, c: nat) {
    c in o.creators || c in o.rings || (!o.frame.NoFrame? && o.frame.call == c)
    || exists k :: k in o.conns && (c in o.conns[k].sendq || c in o.conns[k].recvq)
  }

  /** A call that nobody has gets a creator. */
  ghost predicate NewCallMoves(o: Owners, after: Owners) {
    exists c: nat :: !Has(o, c) && after == o.(creators := o.creators + multiset{c})
  }

  /** A connection that does not exist is opened. */
  ghost predicate NewConnMoves(o: Owners, after: Owners) {
    exists k: nat :: k !in o.conns && after == o.(conns := o.conns[k := Queues([], [])], open := o.open + {k})
  }

  function WithQueues(o: Owners, k: nat, q: Queues): Owners {
    o.(conns := o.conns[k := q])
  }

  /** What a step moves. */
  ghost predicate Moves(o: Owners, e: Step, after: Owners) {
    match e
    case NewCall => NewCallMoves(o, after)
    case DropCall(c) => after == o.(creators := o.creators - multiset{c})
    case RingAdd(c) => after == o.(rings := o.rings + multiset{c})
    case RingRemove(c) => after == o.(rings := o.rings - multiset{c})
    case NewConn => NewConnMoves(o, after)
    case Connect(k) => after == o.(sockets := o.sockets + {k})
    case Watch(k) => after == o.(watched := o.watched + {k})
    case Unwatch(k) => after == o.(watched := o.watched - {k})
    case Send(k, c) => k in o.conns && after == WithQueues(o, k, o.conns[k].(sendq := o.conns[k].sendq + [c]))
    case LoopBegin(k) => after == o.(busy := k)
    case LoopEnd =>
      after == o.(busy := -1, conns := if o.busy in o.open + o.closing then o.conns else o.conns - {o.busy})
    case SendStop =>
      && o.busy in o.conns && o.conns[o.busy].sendq != []
      && var q := o.conns[o.busy];
         after == WithQueues(o, o.busy, q.(sendq := q.sendq[1..])).(frame := Sending(q.sendq[0]))
    case SendResume =>
      && o.busy in o.conns && o.frame.Sending?
      && var q := o.conns[o.busy];
         after == if o.busy in o.open
                  then WithQueues(o, o.busy, q.(recvq := q.recvq + [o.frame.call])).(frame := NoFrame)
                  else o.(frame := NoFrame)
    case RecvStop =>
      && o.busy in o.conns && o.conns[o.busy].recvq != []
      && var q := o.conns[o.busy];
         after == WithQueues(o, o.busy, q.(recvq := q.recvq[1..])).(frame := Receiving(q.recvq[0]))
    case RecvResume => after == o.(frame := NoFrame)
    case CallDestroyed(_) => after == o
    case ConnDestroyed(_) => after == o
    case CloseBegin(k) => after == o.(open := o.open - {k}, closing := o.closing + {k}, watched := o.watched - {k})
    case CloseDropSend(k) =>
      k in o.conns && o.conns[k].sendq != []
      && after == WithQueues(o, k, o.conns[k].(sendq := o.conns[k].sendq[1..]))
    case CloseDropRecv(k) =>
      k in o.conns && o.conns[k].recvq != []
      && after == WithQueues(o, k, o.conns[k].(recvq := o.conns[k].recvq[1..]))
    case CloseEnd(k) =>
      after == o.(closing := o.closing - {k}, sockets := o.sockets - {k},
                  conns := if o.busy == k then o.conns else o.conns - {k})
  }

  // ------------------------------------------------------------------ the steps do that

  lemma {:induction false} InQueueOf(conns: seq<Conn>, k: nat, c: nat)
    requires k < |conns| && (c in conns[k].sendq || c in conns[k].recvq)
    ensures InQueues(conns, c) > 0
  {
    if k == 0 {
      InQueue(conns[0].sendq, c);
      InQueue(conns[0].recvq, c);
    } else {
      InQueueOf(conns[1..], k - 1, c);
    }
  }

  lemma {:induction false} InQueue(q: seq<nat>, c: nat)
    ensures c in q ==> Times(q, c) > 0
  {
    if |q| > 0 && q[0] != c {
      InQueue(q[1..], c);
    }
  }

  lemma NobodyHas(s: State, c: nat)
    requires CallsOk(s) && (c < |s.calls| ==> s.calls[c] == 0)
    ensures !Has(Of(s), c)
  {
    assert Holders(s, c) == 0;
    if k: nat :| k in Of(s).conns && (c in Of(s).conns[k].sendq || c in Of(s).conns[k].recvq) {
      InQueueOf(s.conns, k, c);
    }
  }

  lemma NewCallIsFresh(s: State)
    requires Inv(s)
    ensures NewCallMoves(Of(s), Of(Next(s, NewCall)))
  {
    var c := if |s.freeCalls| > 0 then s.freeCalls[0] else |s.calls|;
    if |s.freeCalls| > 0 {
      assert Times(s.freeCalls, c) > 0;
      assert CallIsFree(s, c);
    }
    NobodyHas(s, c);
    assert Of(Next(s, NewCall)) == Of(s).(creators := Of(s).creators + multiset{c});
  }

  lemma NewConnIsFresh(s: State)
    requires Inv(s)
    ensures NewConnMoves(Of(s), Of(Next(s, NewConn)))
  {
    var k := if |s.freeConns| > 0 then s.freeConns[0] else |s.conns|;
    if |s.freeConns| > 0 {
      assert Times(s.freeConns, k) > 0;
      assert ConnIsFree(s, k) && ConnOk(s, k);
    }
    var o, after := Of(s), Of(Next(s, NewConn));
    assert after.conns == o.conns[k := Queues([], [])];
    assert after.open == o.open + {k} && after.watched == o.watched && after.sockets == o.sockets;
  }

  /** A connection that changes, but goes on to exist. */
  lemma OneConnMoves(s: State, t: State, k: nat)
    requires k < |s.conns| == |t.conns| && t.conns == s.conns[k := t.conns[k]] && Exists(s, k) && Exists(t, k)
    ensures Of(t).conns == Of(s).conns[k := Queues(t.conns[k].sendq, t.conns[k].recvq)]
    ensures Of(t).open == if t.conns[k].life.Open? then Of(s).open + {k} else Of(s).open - {k}
    ensures Of(t).watched == if t.conns[k].watchdog then Of(s).watched + {k} else Of(s).watched - {k}
    ensures Of(t).sockets == if t.conns[k].socket then Of(s).sockets + {k} else Of(s).sockets - {k}
  {
    assert forall j: nat :: j < |s.conns| && j != k ==> t.conns[j] == s.conns[j];
  }

  lemma OneConnSame(s: State, k: nat)
    requires k < |s.conns|
    ensures s.conns[k].life.Open? <==> k in Of(s).open
    ensures s.conns[k].watchdog <==> k in Of(s).watched
    ensures s.conns[k].socket <==> k in Of(s).sockets
    ensures Exists(s, k) ==> k in Of(s).conns && Of(s).conns[k] == Queues(s.conns[k].sendq, s.conns[k].recvq)
  {
  }

  lemma ConnStepMoves(s: State, e: Step, k: nat)
    requires Inv(s) && Enabled(s, e)
    requires e == Connect(k) || e == Watch(k) || e == Unwatch(k)
    ensures Moves(Of(s), e, Of(Next(s, e)))
  {
    assert ConnOk(s, k);
    OneConnSame(s, k);
    OneConnMoves(s, Next(s, e), k);
  }

  lemma BeginMoves(s: State, e: Step, k: nat)
    requires Inv(s) && Enabled(s, e) && (e == LoopBegin(k) || e == CloseBegin(k))
    ensures Moves(Of(s), e, Of(Next(s, e)))
  {
    assert ConnOk(s, k);
    OneConnSame(s, k);
    OneConnMoves(s, Next(s, e), k);
  }

  lemma SendMoves(s: State, k: nat, c: nat)
    requires Inv(s) && Enabled(s, Send(k, c))
    ensures Moves(Of(s), Send(k, c), Of(Next(s, Send(k, c))))
  {
    assert ConnOk(s, k);
    OneConnSame(s, k);
    OneConnMoves(s, Next(s, Send(k, c)), k);
  }

  lemma DropSendMoves(s: State, k: nat)
    requires Inv(s) && Enabled(s, CloseDropSend(k))
    ensures Moves(Of(s), CloseDropSend(k), Of(Next(s, CloseDropSend(k))))
  {
    assert ConnOk(s, k);
    OneConnSame(s, k);
    OneConnMoves(s, Next(s, CloseDropSend(k)), k);
  }

  lemma DropRecvMoves(s: State, k: nat)
    requires Inv(s) && Enabled(s, CloseDropRecv(k))
    ensures Moves(Of(s), CloseDropRecv(k), Of(Next(s, CloseDropRecv(k))))
  {
    assert ConnOk(s, k);
    OneConnSame(s, k);
    OneConnMoves(s, Next(s, CloseDropRecv(k)), k);
  }

  lemma FrameStepMoves(s: State, e: Step)
    requires Inv(s) && Enabled(s, e) && (e.SendStop? || e.SendResume? || e.RecvStop? || e.RecvResume?)
    ensures Moves(Of(s), e, Of(Next(s, e)))
  {
    assert ConnOk(s, s.busy);
    OneConnSame(s, s.busy);
    if !e.RecvResume? && !(e.SendResume? && !s.conns[s.busy].life.Open?) {
      OneConnMoves(s, Next(s, e), s.busy);
    } else {
      assert Next(s, e).conns == s.conns;
      SameConnsSame(s, Next(s, e));
    }
  }

  lemma SameConnsSame(s: State, t: State)
    requires t.conns == s.conns
    ensures Of(t).conns == Of(s).conns && Of(t).open == Of(s).open
    ensures Of(t).watched == Of(s).watched && Of(t).sockets == Of(s).sockets
  {
  }

  lemma OneConnGone(s: State, t: State, k: nat)
    requires k < |s.conns| == |t.conns| && t.conns == s.conns[k := t.conns[k]] && t.conns[k].life.Freed?
    requires !s.conns[k].life.Open? && !t.conns[k].watchdog && !t.conns[k].socket && !s.conns[k].watchdog
    ensures Of(t).conns == Of(s).conns - {k} && Of(t).open == Of(s).open
    ensures Of(t).watched == Of(s).watched && Of(t).sockets == Of(s).sockets - {k}
  {
    assert forall j: nat :: j < |s.conns| && j != k ==> t.conns[j] == s.conns[j];
  }

  /** A connection that gives up a reference, and with the last one its existence. */
  lemma CloseEndMoves(s: State, k: nat)
    requires Inv(s) && Enabled(s, CloseEnd(k))
    ensures Moves(Of(s), CloseEnd(k), Of(Next(s, CloseEnd(k))))
  {
    assert ConnOk(s, k);
    OneConnSame(s, k);
    if s.busy == k {
      OneConnMoves(s, Next(s, CloseEnd(k)), k);
    } else {
      OneConnGone(s, Next(s, CloseEnd(k)), k);
    }
  }

  lemma LoopEndMoves(s: State)
    requires Inv(s) && Enabled(s, LoopEnd)
    ensures Moves(Of(s), LoopEnd, Of(Next(s, LoopEnd)))
  {
    var k := s.busy;
    assert ConnOk(s, k);
    OneConnSame(s, k);
    if s.conns[k].life.Open? || k in s.closing {
      OneConnMoves(s, Next(s, LoopEnd), k);
    } else {
      OneConnGone(s, Next(s, LoopEnd), k);
    }
  }

  /** Every step moves what it should, and nothing else. */
  lemma StepMoves(s: State, e: Step)
    requires Inv(s) && Enabled(s, e)
    ensures Moves(Of(s), e, Of(Next(s, e)))
  {
    match e
    case NewCall => NewCallIsFresh(s);
    case NewConn => NewConnIsFresh(s);
    case DropCall(c) => SameConnsSame(s, Next(s, e));
    case RingAdd(c) => SameConnsSame(s, Next(s, e));
    case RingRemove(c) => SameConnsSame(s, Next(s, e));
    case CallDestroyed(c) => SameConnsSame(s, Next(s, e));
    case ConnDestroyed(k) => SameConnsSame(s, Next(s, e));
    case Connect(k) => ConnStepMoves(s, e, k);
    case Watch(k) => ConnStepMoves(s, e, k);
    case Unwatch(k) => ConnStepMoves(s, e, k);
    case LoopBegin(k) => BeginMoves(s, e, k);
    case CloseBegin(k) => BeginMoves(s, e, k);
    case Send(k, c) => SendMoves(s, k, c);
    case CloseDropSend(k) => DropSendMoves(s, k);
    case CloseDropRecv(k) => DropRecvMoves(s, k);
    case CloseEnd(k) => CloseEndMoves(s, k);
    case LoopEnd => LoopEndMoves(s);
    case _ => FrameStepMoves(s, e);
  }
}
