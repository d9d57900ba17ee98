/** core_close, conn_failure, conn_timeout, the ends of do_send and recv_done, and the hold of
    core_loop, as they are written, with event handlers that may do anything in between: also
    close connections, even the one that is being closed, and start others in their place. */
module CoreLoop {
  import opened RefCounts

  /** What the callers of event handlers are at work on: connections that core_close is closing, and
      calls and connections that are being destroyed. */
  datatype Scope = Scope(closing: set<nat>, calls: set<nat>, conns: set<nat>)

  const NOTHING := Scope({}, {}, {})

  /** These connections are being closed, and all that is being destroyed at the moment. */
  function Around(s: State, closing: set<nat>): Scope {
    Scope(closing, s.dyingCalls, s.dyingConns)
  }

  predicate AtWork(s: State, at: Scope) {
    at.closing <= s.closing && at.calls <= s.dyingCalls && at.conns <= s.dyingConns
  }

  /** Nothing is left half destroyed. */
  predicate SameDying(s: State, after: State) {
    after.dyingCalls == s.dyingCalls && after.dyingConns == s.dyingConns
  }

  /** The events that are signalled to the handlers. */
  datatype Signal =
    | OnConnFailed(k: nat) | OnConnTimeout(k: nat) | OnConnClose(k: nat)
    | OnSendStop(c: nat) | OnRecvStop(c: nat)
    | OnCallDestroyed(c: nat) | OnConnDestroyed(k: nat)

  /** Only destructions of calls have been signalled in between. */
  predicate CallsDestroyed(before: seq<Signal>, after: seq<Signal>) {
    before <= after && forall i :: |before| <= i < |after| ==> after[i].OnCallDestroyed?
  }

  /** And then the close of a connection, with its destruction unless it is held. */
  predicate ClosesAfter(before: seq<Signal>, after: seq<Signal>, k: nat, held: bool) {
    if held then after != [] && after[|after| - 1] == OnConnClose(k) && CallsDestroyed(before, after[..|after| - 1])
    else after != [] && after[|after| - 1] == OnConnDestroyed(k) && ClosesAfter(before, after[..|after| - 1], k, true)
  }

  class Core {
    var s: State
    ghost var log: seq<Step>
    /** What this code has signalled; handlers may signal more. */
    ghost var signals: seq<Signal>

    ghost predicate Valid()
      reads this
    {
      Reached(log, s)
    }

    constructor ()
      ensures Valid() && s == Init() && log == [] && signals == []
    {
      s, log, signals := State([], [], {}, [], [], {}, 0, multiset{}, multiset{}, {}, -1, NoFrame), [], [];
    }

    method Take(e: Step)
      requires Valid() && Enabled(s, e)
      modifies this`s, this`log
      ensures Valid() && Inv(s) && s == Next(old(s), e) && log == old(log) + [e]
    {
      StepKeepsInv(s, e);
      RunMore(Init(), log, e);
      s := Next(s, e);
      log := log + [e];
    }

    /** One step that an event handler may cause. */
    method HandlerStep(at: Scope, e: Step) returns (ghost did: seq<Step>)
      requires Valid() && AtWork(s, at)
      modifies this`s, this`log
      ensures Valid() && AtWork(s, at) && s.busy == old(s.busy) && s.frame == old(s.frame)
      ensures |s.conns| >= old(|s.conns|) && Kept(old(s), s, at)
      ensures log == old(log) + did && forall e :: e in did ==> ByHandler(e, at)
      ensures e.CallDestroyed? && e.c in old(s.dyingCalls) - at.calls ==>
                s.dyingCalls == old(s.dyingCalls) - {e.c} && s.dyingConns == old(s.dyingConns)
      ensures e.ConnDestroyed? && e.k in old(s.dyingConns) - at.conns ==>
                s.dyingConns == old(s.dyingConns) - {e.k} && s.dyingCalls == old(s.dyingCalls)
    {
      did := [];
      if Enabled(s, e) && ByHandler(e, at) {
        LeftAlone(s, e, at);
        Take(e);
        did := [e];
      } else {
        NothingHappens(s, at);
      }
    }

    /** Event handlers run: any number of things happen, among them closes of other connections,
        from beginning to end or in part. What is being closed already is left alone, since
        core_close guards against recursive calls, and so is what is being destroyed. */
    method AnySteps(at: Scope) returns (ghost did: seq<Step>)
      requires Valid() && AtWork(s, at)
      modifies this`s, this`log
      ensures Valid() && AtWork(s, at) && s.busy == old(s.busy) && s.frame == old(s.frame)
      ensures |s.conns| >= old(|s.conns|) && Kept(old(s), s, at)
      ensures log == old(log) + did && forall e :: e in did ==> ByHandler(e, at)
    {
      var n: nat := *;
      did := [];
      NothingHappens(s, at);
      while n > 0
        invariant Valid() && AtWork(s, at) && s.busy == old(s.busy) && s.frame == old(s.frame)
        invariant |s.conns| >= old(|s.conns|) && Kept(old(s), s, at)
        invariant log == old(log) + did && forall e :: e in did ==> ByHandler(e, at)
      {
        ghost var before := s;
        var e: Step := *;
        ghost var more := HandlerStep(at, e);
        KeptOn(old(s), before, s, at);
        did := did + more;
        n := n - 1;
      }
    }

    /** One destruction that a handler has begun comes to its end. */
    method FinishOne(at: Scope) returns (ghost did: seq<Step>)
      requires Valid() && AtWork(s, at) && (s.dyingCalls != at.calls || s.dyingConns != at.conns)
      modifies this`s, this`log
      ensures Valid() && AtWork(s, at) && s.busy == old(s.busy) && s.frame == old(s.frame)
      ensures |s.conns| >= old(|s.conns|) && Kept(old(s), s, at)
      ensures log == old(log) + did && forall e :: e in did ==> ByHandler(e, at)
      ensures s.dyingCalls < old(s.dyingCalls)
              || (s.dyingCalls == old(s.dyingCalls) && s.dyingConns < old(s.dyingConns))
    {
      if s.dyingCalls != at.calls {
        OneMore(at.calls, s.dyingCalls);
        var c :| c in s.dyingCalls - at.calls;
        did := HandlerStep(at, CallDestroyed(c));
      } else {
        OneMore(at.conns, s.dyingConns);
        var k :| k in s.dyingConns - at.conns;
        did := HandlerStep(at, ConnDestroyed(k));
      }
    }

    /** A handler does not return before what it has begun to destroy is destroyed. */
    method FinishDestructions(at: Scope) returns (ghost did: seq<Step>)
      requires Valid() && AtWork(s, at)
      modifies this`s, this`log
      ensures Valid() && s.dyingCalls == at.calls && s.dyingConns == at.conns && at.closing <= s.closing
      ensures s.busy == old(s.busy) && s.frame == old(s.frame)
      ensures |s.conns| >= old(|s.conns|) && Kept(old(s), s, at)
      ensures log == old(log) + did && forall e :: e in did ==> ByHandler(e, at)
    {
      did := [];
      NothingHappens(s, at);
      while s.dyingCalls != at.calls || s.dyingConns != at.conns
        invariant Valid() && AtWork(s, at) && s.busy == old(s.busy) && s.frame == old(s.frame)
        invariant |s.conns| >= old(|s.conns|) && Kept(old(s), s, at)
        invariant log == old(log) + did && forall e :: e in did ==> ByHandler(e, at)
        decreases s.dyingCalls, s.dyingConns
      {
        ghost var before := s;
        ghost var more := FinishOne(at);
        KeptOn(old(s), before, s, at);
        did := did + more;
      }
    }

    /** event_signal: the handlers of an event run. */
    method Handlers(e: Signal, closing: set<nat>) returns (ghost did: seq<Step>)
      requires Valid() && closing <= s.closing
      modifies this
      ensures Valid() && closing <= s.closing && SameDying(old(s), s)
      ensures signals == old(signals) + [e]
      ensures s.busy == old(s.busy) && s.frame == old(s.frame)
      ensures |s.conns| >= old(|s.conns|) && Kept(old(s), s, Around(old(s), closing))
      ensures log == old(log) + did && forall e :: e in did ==> ByHandler(e, Around(old(s), closing))
    {
      signals := signals + [e];
      var at := Around(s, closing);
      did := AnySteps(at);
      ghost var before := s;
      ghost var more := FinishDestructions(at);
      KeptOn(old(s), before, s, at);
      did := did + more;
    }

    /** The end of call_dec_ref: if that was the last reference, the handlers of destruction run, and
        then the call goes to the free list. */
    method DestroyCall(c: nat, closing: set<nat>) returns (ghost did: seq<Step>)
      requires Valid() && closing <= s.closing
      modifies this
      ensures Valid() && closing <= s.closing && s.busy == old(s.busy) && s.frame == old(s.frame)
      ensures |s.conns| >= old(|s.conns|) && Kept(old(s), s, Scope(closing, {}, {}))
      ensures s.dyingCalls == old(s.dyingCalls) - {c} && s.dyingConns == old(s.dyingConns)
      ensures log == old(log) + did
      ensures signals == old(signals) + if c in old(s.dyingCalls) then [OnCallDestroyed(c)] else []
      ensures if c in old(s.dyingCalls) then Destruction(did, Around(old(s), closing), CallDestroyed(c)) else did == []
    {
      did := [];
      NothingHappens(s, Scope(closing, {}, {}));
      if c in s.dyingCalls {
        did := Handlers(OnCallDestroyed(c), closing);
        Take(CallDestroyed(c));
        did := did + [CallDestroyed(c)];
      }
    }

    /** The same for conn_dec_ref. */
    method DestroyConn(k: nat) returns (ghost did: seq<Step>)
      requires Valid() && k < |s.conns| && (s.conns[k].life.Freed? <==> k in s.dyingConns)
      modifies this
      ensures Valid() && s.busy == old(s.busy) && s.frame == old(s.frame) && k < |s.conns|
      ensures s.conns[k] == old(s.conns[k]) && log == old(log) + did
      ensures signals == old(signals) + if old(s.conns[k].life.Freed?) then [OnConnDestroyed(k)] else []
      ensures s.dyingCalls == old(s.dyingCalls) && s.dyingConns == old(s.dyingConns) - {k}
      ensures if old(s.conns[k].life.Freed?) then Destruction(did, Around(old(s), {}), ConnDestroyed(k)) else did == []
    {
      did := [];
      if k in s.dyingConns {
        did := Handlers(OnConnDestroyed(k), {});
        Take(ConnDestroyed(k));
        did := did + [ConnDestroyed(k)];
      }
    }

    /** core_close. It drops every call of the two queues, once each, and destroys those that nobody
        else has; then the connection's own reference. On a connection that is closing already, or
        freed, it does nothing. `after` is the destruction of the connection, if that was the last
        reference. */
    method CoreClose(k: nat) returns (ghost did: seq<Step>, ghost after: seq<Step>)
      requires Valid() && k < |s.conns|
      modifies this
      ensures Valid() && s.busy == old(s.busy) && s.frame == old(s.frame) && k < |s.conns|
      ensures s.conns[k].born == old(s.conns[k].born) && !s.conns[k].life.Open? && SameDying(old(s), s)
      ensures !old(s.conns[k].life.Open?) ==> s == old(s) && log == old(log) && signals == old(signals)
      ensures old(s.conns[k].life.Open?) ==>
                && log == old(log) + [CloseBegin(k)] + did + [CloseEnd(k)] + after
                && Drops(did, k) == old(|s.conns[k].sendq| + |s.conns[k].recvq|)
                && if s.busy == k then s.conns[k].life.Closing? && after == []
                   else s.conns[k].life.Freed? && after != [] && after[|after| - 1] == ConnDestroyed(k)
      ensures old(s.conns[k].life.Open?) ==> ClosesAfter(old(signals), signals, k, s.busy == k)
    {
      did, after := [], [];
      if !s.conns[k].life.Open? {
        return;
      }
      did := CloseAll(k);
      after := DestroyConn(k);
    }

    /** All of it, but the destruction. */
    method CloseAll(k: nat) returns (ghost did: seq<Step>)
      requires Valid() && Live(s, k)
      modifies this
      ensures Valid() && s.busy == old(s.busy) && s.frame == old(s.frame) && k < |s.conns|
      ensures s.conns[k].born == old(s.conns[k].born) && s.dyingCalls == old(s.dyingCalls)
      ensures k !in old(s.dyingConns)
      ensures log == old(log) + [CloseBegin(k)] + did + [CloseEnd(k)]
      ensures Drops(did, k) == old(|s.conns[k].sendq| + |s.conns[k].recvq|)
      ensures if s.busy == k then s.conns[k].life.Closing? && s.dyingConns == old(s.dyingConns)
              else s.conns[k].life.Freed? && s.dyingConns == old(s.dyingConns) + {k}
      ensures ClosesAfter(old(signals), signals, k, true)
    {
      Take(CloseBegin(k));
      did := CloseQueues(k);
      EndClose(s, k);
      Take(CloseEnd(k));
    }

    /** Both queues, and the handlers of EV_CONN_CLOSE. */
    method CloseQueues(k: nat) returns (ghost did: seq<Step>)
      requires Valid() && k in s.closing && k < |s.conns|
      modifies this
      ensures Valid() && k in s.closing && k < |s.conns| && s.busy == old(s.busy) && s.frame == old(s.frame)
      ensures s.conns[k].sendq == [] && s.conns[k].recvq == [] && s.conns[k].born == old(s.conns[k].born)
      ensures log == old(log) + did && Drops(did, k) == old(|s.conns[k].sendq| + |s.conns[k].recvq|)
      ensures SameDying(old(s), s)
      ensures ClosesAfter(old(signals), signals, k, true)
    {
      did := DropSends(k);
      ghost var recvs := DropRecvs(k);
      DropsOn(did, recvs, k);
      did := did + recvs;
      ghost var more := Handlers(OnConnClose(k), {k});
      NoDrops(did, more, k);
      did := did + more;
    }

    /** The loop of core_close over the send queue. */
    method DropSends(k: nat) returns (ghost did: seq<Step>)
      requires Valid() && k in s.closing && k < |s.conns|
      modifies this
      ensures Valid() && k in s.closing && k < |s.conns| && s.busy == old(s.busy) && s.frame == old(s.frame)
      ensures s.conns[k] == old(s.conns[k]).(sendq := []) && SameDying(old(s), s)
      ensures log == old(log) + did && Drops(did, k) == old(|s.conns[k].sendq|)
      ensures CallsDestroyed(old(signals), signals)
    {
      did := [];
      while s.conns[k].sendq != []
        invariant Valid() && k in s.closing && k < |s.conns| && s.busy == old(s.busy) && s.frame == old(s.frame)
        invariant s.conns[k] == old(s.conns[k]).(sendq := s.conns[k].sendq) && log == old(log) + did
        invariant Drops(did, k) + |s.conns[k].sendq| == old(|s.conns[k].sendq|) && SameDying(old(s), s)
        invariant CallsDestroyed(old(signals), signals)
        decreases |s.conns[k].sendq|
      {
        ghost var more := DropFirst(k, CloseDropSend(k));
        DropsOn(did, more, k);
        did := did + more;
      }
    }

    /** The loop of core_close over the receive queue. */
    method DropRecvs(k: nat) returns (ghost did: seq<Step>)
      requires Valid() && k in s.closing && k < |s.conns| && s.conns[k].sendq == []
      modifies this
      ensures Valid() && k in s.closing && k < |s.conns| && s.busy == old(s.busy) && s.frame == old(s.frame)
      ensures s.conns[k] == old(s.conns[k]).(recvq := []) && SameDying(old(s), s)
      ensures log == old(log) + did && Drops(did, k) == old(|s.conns[k].recvq|)
      ensures CallsDestroyed(old(signals), signals)
    {
      did := [];
      while s.conns[k].recvq != []
        invariant Valid() && k in s.closing && k < |s.conns| && s.busy == old(s.busy) && s.frame == old(s.frame)
        invariant s.conns[k] == old(s.conns[k]).(recvq := s.conns[k].recvq) && log == old(log) + did
        invariant Drops(did, k) + |s.conns[k].recvq| == old(|s.conns[k].recvq|) && SameDying(old(s), s)
        invariant CallsDestroyed(old(signals), signals)
        decreases |s.conns[k].recvq|
      {
        ghost var more := DropFirst(k, CloseDropRecv(k));
        DropsOn(did, more, k);
        did := did + more;
      }
    }

    method TakeDrop(k: nat, e: Step)
      requires Valid() && Enabled(s, e) && (e == CloseDropSend(k) || e == CloseDropRecv(k))
      modifies this`s, this`log
      ensures Valid() && k in s.closing && k < |s.conns| && s.busy == old(s.busy) && s.frame == old(s.frame)
      ensures s.conns[k] == Shorter(old(s.conns[k]), e) && log == old(log) + [e]
      ensures var c := DroppedBy(old(s.conns[k]), e);
        && (c in s.dyingCalls <==> old(Holders(s, c)) == 1) && c !in old(s.dyingCalls)
        && s.dyingCalls - {c} == old(s.dyingCalls) && s.dyingConns == old(s.dyingConns)
    {
      DropLeaves(s, k, e);
      Take(e);
    }

    /** The end of the call_dec_ref that core_close has called. */
    method DestroyDropped(k: nat, c: nat, ghost e: Step) returns (ghost did: seq<Step>)
      requires Valid() && k in s.closing && k < |s.conns| && (e == CloseDropSend(k) || e == CloseDropRecv(k))
      modifies this
      ensures Valid() && k in s.closing && k < |s.conns| && s.busy == old(s.busy) && s.frame == old(s.frame)
      ensures s.conns[k] == old(s.conns[k]) && did != [] && did[0] == e && Drops(did, k) == 1
      ensures log == old(log) + did[1..]
      ensures s.dyingCalls == old(s.dyingCalls) - {c} && s.dyingConns == old(s.dyingConns)
      ensures if c in old(s.dyingCalls) then did[|did| - 1] == CallDestroyed(c) else did == [e]
      ensures signals == old(signals) + if c in old(s.dyingCalls) then [OnCallDestroyed(c)] else []
    {
      ghost var before := s;
      ghost var more := DestroyCall(c, {k});
      OneDrop(e, more, before, c, k);
      KeepsClosing(before, s, k);
      did := [e] + more;
    }

    /** One turn of either loop: the first call is dropped, and destroyed if nobody else has it. */
    method DropFirst(k: nat, e: Step) returns (ghost did: seq<Step>)
      requires Valid() && Enabled(s, e) && (e == CloseDropSend(k) || e == CloseDropRecv(k))
      modifies this
      ensures Valid() && k in s.closing && k < |s.conns| && s.busy == old(s.busy) && s.frame == old(s.frame)
      ensures s.conns[k] == Shorter(old(s.conns[k]), e) && log == old(log) + did && Drops(did, k) == 1
      ensures SameDying(old(s), s)
      ensures var c := DroppedBy(old(s.conns[k]), e);
        if old(Holders(s, c)) == 1
        then did[|did| - 1] == CallDestroyed(c) && signals == old(signals) + [OnCallDestroyed(c)]
        else did == [e] && signals == old(signals)
    {
      var c := DroppedBy(s.conns[k], e);
      TakeDrop(k, e);
      did := DestroyDropped(k, c, e);
    }

    /** Handlers run on behalf of a live connection. It stays the same one if core_loop holds it or
        they do not close it. */
    method HandlersFor(k: nat, e: Signal) returns (ghost did: seq<Step>)
      requires Valid() && Live(s, k)
      modifies this
      ensures Valid() && s.busy == old(s.busy) && s.frame == old(s.frame) && k < |s.conns| && SameDying(old(s), s)
      ensures signals == old(signals) + [e]
      ensures log == old(log) + did && forall e :: e in did ==> ByHandler(e, NOTHING)
      ensures old(s.busy) == k || CloseEnd(k) !in did ==> s.conns[k].born == old(s.conns[k].born)
    {
      did := Handlers(e, {});
      if old(s.busy) == k || CloseEnd(k) !in did {
        RunSplits(Init(), old(log), did);
        StaysTheSame(old(s), did, k);
      }
    }

    /** Handlers run, and then the connection is closed, or what has come to its place meanwhile. It is
        the connection that was meant if core_loop holds it or no handler has closed it. */
    method SignalAndClose(k: nat, e: Signal) returns (ghost did: seq<Step>, ghost closed: seq<Step>)
      requires Valid() && Live(s, k)
      modifies this
      ensures Valid() && s.busy == old(s.busy) && s.frame == old(s.frame) && k < |s.conns| && SameDying(old(s), s)
      ensures log == old(log) + did + closed && forall e :: e in did ==> ByHandler(e, NOTHING)
      ensures closed == [] || (closed[0] == CloseBegin(k) && CloseEnd(k) in closed)
      ensures if closed == [] then signals == old(signals) + [e]
              else ClosesAfter(old(signals) + [e], signals, k, s.busy == k)
      ensures !s.conns[k].life.Open?
      ensures old(s.busy) == k || CloseEnd(k) !in did ==> s.conns[k].born == old(s.conns[k].born)
    {
      did := HandlersFor(k, e);
      ghost var open := s.conns[k].life.Open?;
      ghost var after;
      closed, after := CoreClose(k);
      closed := if open then [CloseBegin(k)] + closed + [CloseEnd(k)] + after else [];
    }

    /** conn_failure. */
    method ConnFailure(k: nat) returns (ghost did: seq<Step>, ghost closed: seq<Step>)
      requires Valid() && Live(s, k)
      modifies this
      ensures Valid() && s.busy == old(s.busy) && s.frame == old(s.frame) && k < |s.conns| && SameDying(old(s), s)
      ensures log == old(log) + did + closed && forall e :: e in did ==> ByHandler(e, NOTHING)
      ensures closed == [] || (closed[0] == CloseBegin(k) && CloseEnd(k) in closed)
      ensures if closed == [] then signals == old(signals) + [OnConnFailed(k)]
              else ClosesAfter(old(signals) + [OnConnFailed(k)], signals, k, s.busy == k)
      ensures !s.conns[k].life.Open?
      ensures old(s.busy) == k || CloseEnd(k) !in did ==> s.conns[k].born == old(s.conns[k].born)
    {
      did, closed := SignalAndClose(k, OnConnFailed(k));
    }

    /** conn_timeout, which takes note that the watchdog is gone. */
    method ConnTimeout(k: nat) returns (ghost did: seq<Step>, ghost closed: seq<Step>)
      requires Valid() && Live(s, k) && s.conns[k].watchdog
      modifies this
      ensures Valid() && s.busy == old(s.busy) && s.frame == old(s.frame) && k < |s.conns| && SameDying(old(s), s)
      ensures log == old(log) + [Unwatch(k)] + did + closed && forall e :: e in did ==> ByHandler(e, NOTHING)
      ensures closed == [] || (closed[0] == CloseBegin(k) && CloseEnd(k) in closed)
      ensures if closed == [] then signals == old(signals) + [OnConnTimeout(k)]
              else ClosesAfter(old(signals) + [OnConnTimeout(k)], signals, k, s.busy == k)
      ensures !s.conns[k].life.Open?
      ensures old(s.busy) == k || CloseEnd(k) !in did ==> s.conns[k].born == old(s.conns[k].born)
    {
      Take(Unwatch(k));
      did, closed := SignalAndClose(k, OnConnTimeout(k));
    }

    /** A call leaves a queue for the frame, handlers run, and it leaves the frame. */
    method StopAndResume(stop: Step, resume: Step, ghost c: nat, e: Signal) returns (ghost did: seq<Step>)
      requires Valid() && s.busy >= 0 && Enabled(s, stop)
      requires || (stop == SendStop && resume == SendResume && c == s.conns[s.busy].sendq[0])
               || (stop == RecvStop && resume == RecvResume && c == s.conns[s.busy].recvq[0])
      modifies this
      ensures Valid() && s.busy == old(s.busy) && s.frame.NoFrame? && signals == old(signals) + [e]
      ensures log == old(log) + [stop] + did + [resume] && forall e :: e in did ==> ByHandler(e, NOTHING)
      ensures c in s.dyingCalls <==> Holders(s, c) == 0
      ensures s.dyingCalls - {c} == old(s.dyingCalls) && s.dyingConns == old(s.dyingConns)
    {
      Take(stop);
      ghost var at := Around(s, {});
      did := Handlers(e, {});
      ByAnyHandler(did, at);
      ResumeLeaves(s, resume);
      Take(resume);
      DyingHasNone(s, c);
    }

    /** The same, and then the call is destroyed if nobody else has it. `mid` is the state at the
        resumption. */
    method EndCall(stop: Step, resume: Step, c: nat, e: Signal)
      returns (ghost did: seq<Step>, ghost mid: State, ghost after: seq<Step>)
      requires Valid() && s.busy >= 0 && Enabled(s, stop)
      requires || (stop == SendStop && resume == SendResume && c == s.conns[s.busy].sendq[0])
               || (stop == RecvStop && resume == RecvResume && c == s.conns[s.busy].recvq[0])
      modifies this
      ensures Valid() && s.busy == old(s.busy) && s.frame.NoFrame? && SameDying(old(s), s)
      ensures log == old(log) + [stop] + did + [resume] + after
      ensures Reached(old(log) + [stop] + did + [resume], mid)
      ensures forall e :: e in did ==> ByHandler(e, NOTHING)
      ensures if Holders(mid, c) == 0
              then Destruction(after, Around(mid, {}), CallDestroyed(c))
                   && signals == old(signals) + [e, OnCallDestroyed(c)]
              else after == [] && signals == old(signals) + [e]
    {
      did := StopAndResume(stop, resume, c, e);
      mid := s;
      after := DestroyCall(c, {});
    }

    /** The end of do_send: the call leaves the send queue, handlers run, and the call goes to the
        receive queue, unless they have closed the connection; then it is destroyed if nobody else
        has it. `mid` is the state at the resumption. */
    method FinishSend() returns (ghost did: seq<Step>, ghost mid: State, ghost after: seq<Step>)
      requires Valid() && s.busy >= 0 && Enabled(s, SendStop)
      modifies this
      ensures Valid() && s.busy == old(s.busy) && s.frame.NoFrame? && SameDying(old(s), s)
      ensures log == old(log) + [SendStop] + did + [SendResume] + after
      ensures Reached(old(log) + [SendStop] + did + [SendResume], mid)
      ensures forall e :: e in did ==> ByHandler(e, NOTHING)
      ensures var c := old(s.conns[s.busy].sendq[0]);
        if Holders(mid, c) == 0
        then Destruction(after, Around(mid, {}), CallDestroyed(c))
             && signals == old(signals) + [OnSendStop(c), OnCallDestroyed(c)]
        else after == [] && signals == old(signals) + [OnSendStop(c)]
    {
      var c := s.conns[s.busy].sendq[0];
      did, mid, after := EndCall(SendStop, SendResume, c, OnSendStop(c));
    }

    /** recv_done: the call leaves the receive queue, handlers run, and it is destroyed if nobody else
        has it. */
    method RecvDone() returns (ghost did: seq<Step>, ghost mid: State, ghost after: seq<Step>)
      requires Valid() && s.busy >= 0 && Enabled(s, RecvStop)
      modifies this
      ensures Valid() && s.busy == old(s.busy) && s.frame.NoFrame? && SameDying(old(s), s)
      ensures log == old(log) + [RecvStop] + did + [RecvResume] + after
      ensures Reached(old(log) + [RecvStop] + did + [RecvResume], mid)
      ensures forall e :: e in did ==> ByHandler(e, NOTHING)
      ensures var c := old(s.conns[s.busy].recvq[0]);
        if Holders(mid, c) == 0
        then Destruction(after, Around(mid, {}), CallDestroyed(c))
             && signals == old(signals) + [OnRecvStop(c), OnCallDestroyed(c)]
        else after == [] && signals == old(signals) + [OnRecvStop(c)]
    {
      var c := s.conns[s.busy].recvq[0];
      did, mid, after := EndCall(RecvStop, RecvResume, c, OnRecvStop(c));
    }

    /** What core_loop does with a connection that is ready: it holds the connection meanwhile, also
        when do_send or do_recv find that it has failed. Then the connection is destroyed if it has
        been closed. `mid` is the state in which the hold is given up. */
    method Process(k: nat) returns (ghost did: seq<Step>, ghost mid: State, ghost after: seq<Step>)
      requires Valid() && s.busy == -1 && s.frame.NoFrame? && Live(s, k)
      modifies this
      ensures Valid() && s.busy == -1 && log == old(log) + [LoopBegin(k)] + did + [LoopEnd] + after
      ensures SameDying(old(s), s) && Reached(old(log) + [LoopBegin(k)] + did, mid) && k < |mid.conns|
      ensures if Live(mid, k) || k in mid.closing then after == []
              else after != [] && after[|after| - 1] == ConnDestroyed(k)
    {
      Take(LoopBegin(k));
      did := [];
      var n: nat := *;
      while n > 0
        invariant Valid() && s.busy == k && s.frame.NoFrame? && log == old(log) + [LoopBegin(k)] + did
        invariant SameDying(old(s), s)
      {
        ghost var more := Turn(k);
        did := did + more;
        n := n - 1;
      }
      mid := s;
      EndHold(s);
      Take(LoopEnd);
      after := DestroyConn(k);
    }

    /** The connection has failed, or is ready for a request or a reply. */
    method Turn(k: nat) returns (ghost did: seq<Step>)
      requires Valid() && s.busy == k && s.frame.NoFrame?
      modifies this
      ensures Valid() && s.busy == k && s.frame.NoFrame? && log == old(log) + did && SameDying(old(s), s)
    {
      var fails: bool := *;
      if fails && Live(s, k) {
        ghost var handlers, closed := ConnFailure(k);
        did := handlers + closed;
      } else {
        did := SendAndReceive();
      }
    }

    /** A request or a reply that is complete, or both, or neither. */
    method SendAndReceive() returns (ghost did: seq<Step>)
      requires Valid() && s.busy >= 0 && s.frame.NoFrame?
      modifies this
      ensures Valid() && s.busy == old(s.busy) && s.frame.NoFrame? && log == old(log) + did && SameDying(old(s), s)
    {
      did := [];
      if Enabled(s, SendStop) {
        ghost var sent, mid, after := FinishSend();
        did := [SendStop] + sent + [SendResume] + after;
      }
      ghost var more := ReceiveIfAny();
      did := did + more;
    }

    method ReceiveIfAny() returns (ghost did: seq<Step>)
      requires Valid() && s.busy >= 0 && s.frame.NoFrame?
      modifies this
      ensures Valid() && s.busy == old(s.busy) && s.frame.NoFrame? && log == old(log) + did && SameDying(old(s), s)
    {
      did := [];
      if Enabled(s, RecvStop) {
        ghost var received, mid, after := RecvDone();
        did := [RecvStop] + received + [RecvResume] + after;
      }
    }
  }

  ghost predicate Reached(log: seq<Step>, s: State) {
    Legal(Init(), log) && Run(Init(), log) == s
  }

  // ------------------------------------------------------------------ destruction

  lemma KeepsClosing(s: State, after: State, k: nat)
    requires Kept(s, after, Scope({k}, {}, {}))
    ensures k < |s.conns| && k < |after.conns| && after.conns[k] == s.conns[k]
  {
    assert k in {k} + {};
  }

  lemma OneMore(some: set<nat>, all: set<nat>)
    requires some <= all && all != some
    ensures exists x :: x in all - some
  {
    assert !(all <= some);
    var x :| x in all && x !in some;
    assert x in all - some;
  }

  /** A call that is allocated, or dying. */
  predicate NotYetFree(s: State, c: nat) {
    c < |s.calls| && (s.calls[c] > 0 || c in s.dyingCalls)
  }

  lemma DyingHasNone(s: State, c: nat)
    requires Inv(s) && NotYetFree(s, c)
    ensures c in s.dyingCalls <==> Holders(s, c) == 0
  {
  }

  /** The call that is dropped. */
  function DroppedBy(x: Conn, e: Step): nat {
    if e.CloseDropSend? && x.sendq != [] then x.sendq[0] else if x.recvq != [] then x.recvq[0] else 0
  }

  lemma DropLeaves(s: State, k: nat, e: Step)
    requires Inv(s) && Enabled(s, e) && (e == CloseDropSend(k) || e == CloseDropRecv(k))
    ensures Inv(Next(s, e))
    ensures var t, c := Next(s, e), DroppedBy(s.conns[k], e);
      && (c in t.dyingCalls <==> Holders(s, c) == 1) && c !in s.dyingCalls
      && t.dyingCalls - {c} == s.dyingCalls && t.dyingConns == s.dyingConns
  {
    StepKeepsInv(s, e);
    var c := DroppedBy(s.conns[k], e);
    QueuedIsHeld(s.conns, k, c);
    HeldIsCall(s, c);
  }

  lemma ResumeLeaves(s: State, e: Step)
    requires Inv(s) && Enabled(s, e) && (e == SendResume || e == RecvResume)
    ensures var t, c := Next(s, e), s.frame.call;
      NotYetFree(t, c) && c !in s.dyingCalls && t.dyingCalls - {c} == s.dyingCalls && t.dyingConns == s.dyingConns
  {
    HeldIsCall(s, s.frame.call);
  }

  /** How many calls of a connection's queues core_close has dropped. */
  function Drops(es: seq<Step>, k: nat): nat {
    if |es| == 0 then 0
    else Drops(es[..|es| - 1], k) + if es[|es| - 1] in {CloseDropSend(k), CloseDropRecv(k)} then 1 else 0
  }

  lemma {:induction false} DropsOn(a: seq<Step>, b: seq<Step>, k: nat)
    ensures Drops(a + b, k) == Drops(a, k) + Drops(b, k)
    decreases |b|
  {
    if |b| == 0 {
      assert a + b == a;
    } else {
      assert (a + b)[..|a + b| - 1] == a + b[..|b| - 1];
      DropsOn(a, b[..|b| - 1], k);
    }
  }

  lemma {:induction false} NoDrops(a: seq<Step>, b: seq<Step>, k: nat)
    requires CloseDropSend(k) !in b && CloseDropRecv(k) !in b
    ensures Drops(a + b, k) == Drops(a, k)
    decreases |b|
  {
    if |b| == 0 {
      assert a + b == a;
    } else {
      assert (a + b)[..|a + b| - 1] == a + b[..|b| - 1] && b[|b| - 1] in b;
      assert forall e :: e in b[..|b| - 1] ==> e in b;
      NoDrops(a, b[..|b| - 1], k);
    }
  }

  /** A connection without the first call of the queue that is being dropped. */
  function Shorter(x: Conn, e: Step): Conn {
    if e.CloseDropSend? && x.sendq != [] then x.(sendq := x.sendq[1..])
    else if e.CloseDropRecv? && x.recvq != [] then x.(recvq := x.recvq[1..])
    else x
  }

  /** A call that is dropped, and perhaps destroyed, counts once. */
  lemma OneDrop(e: Step, did: seq<Step>, s: State, c: nat, k: nat)
    requires e == CloseDropSend(k) || e == CloseDropRecv(k)
    requires did == [] || Destruction(did, Around(s, {k}), CallDestroyed(c))
    ensures Drops([e] + did, k) == 1
    ensures if did == [] then [e] + did == [e] else ([e] + did)[|did|] == CallDestroyed(c)
  {
    NoDrops([e], did, k);
    assert [e][..0] == [] && Drops([e], k) == Drops([], k) + 1;
  }

  /** Steps that event handlers can cause while their callers are at this work. */
  predicate ByHandler(e: Step, at: Scope) {
    match e
    case LoopBegin(_) => false
    case LoopEnd => false
    case SendStop => false
    case SendResume => false
    case RecvStop => false
    case RecvResume => false
    case CloseDropSend(k) => k !in at.closing
    case CloseDropRecv(k) => k !in at.closing
    case CloseEnd(k) => k !in at.closing
    case CallDestroyed(c) => c !in at.calls
    case ConnDestroyed(k) => k !in at.conns
    case _ => true
  }

  lemma ByAnyHandler(did: seq<Step>, at: Scope)
    requires forall e :: e in did ==> ByHandler(e, at)
    ensures forall e :: e in did ==> ByHandler(e, NOTHING)
  {
  }

  /** Handlers of destruction, and then the step that puts the object on its free list. */
  predicate Destruction(did: seq<Step>, at: Scope, last: Step) {
    && |did| > 0 && did[|did| - 1] == last
    && forall i :: 0 <= i < |did| - 1 ==> ByHandler(did[i], at)
  }

  /** core_close's last assertion, and what its last step does. */
  lemma EndClose(s: State, k: nat)
    requires Inv(s) && Enabled(s, CloseEnd(k))
    ensures s.conns[k].life.Closing?
    ensures var t := Next(s, CloseEnd(k));
      && k !in t.closing && t.conns[k].born == s.conns[k].born
      && k !in s.dyingConns && t.dyingCalls == s.dyingCalls
      && if s.busy == k then t.conns[k].life.Closing? && t.dyingConns == s.dyingConns
         else t.conns[k].life.Freed? && t.dyingConns == s.dyingConns + {k}
  {
    assert ConnOk(s, k);
  }

  /** What the end of core_loop's hold does. */
  lemma EndHold(s: State)
    requires Inv(s) && Enabled(s, LoopEnd)
    ensures var t, k := Next(s, LoopEnd), s.busy;
      && (t.conns[k].life.Freed? <==> k in t.dyingConns) && k !in s.dyingConns && t.dyingConns - {k} == s.dyingConns
      && (t.conns[k].life.Freed? <==> !Live(s, k) && k !in s.closing) && t.dyingCalls == s.dyingCalls
  {
    assert ConnOk(s, s.busy);
  }

  /** These connections are as they were. */
  predicate Kept(s: State, after: State, at: Scope) {
    forall k :: k in at.closing + at.conns ==> k < |s.conns| && k < |after.conns| && after.conns[k] == s.conns[k]
  }

  lemma NothingHappens(s: State, at: Scope)
    requires Inv(s) && AtWork(s, at)
    ensures Kept(s, s, at)
  {
  }

  lemma KeptOn(a: State, b: State, c: State, at: Scope)
    requires Kept(a, b, at) && Kept(b, c, at)
    ensures Kept(a, c, at)
  {
  }

  lemma OneIsLeftAlone(s: State, e: Step, at: Scope, k: nat)
    requires Inv(s) && Enabled(s, e) && ByHandler(e, at) && AtWork(s, at) && k in at.closing + at.conns
    ensures k < |s.conns| && k < |Next(s, e).conns| && Next(s, e).conns[k] == s.conns[k]
  {
    assert k < |s.conns|;
    assert ConnOk(s, k);
    if e.NewConn? && |s.freeConns| > 0 {
      assert Times(s.freeConns, s.freeConns[0]) >= 1;
    }
  }

  lemma LeftAlone(s: State, e: Step, at: Scope)
    requires Inv(s) && Enabled(s, e) && ByHandler(e, at) && AtWork(s, at)
    ensures AtWork(Next(s, e), at) && Next(s, e).busy == s.busy && Next(s, e).frame == s.frame
    ensures |Next(s, e).conns| >= |s.conns|
    ensures Kept(s, Next(s, e), at)
  {
    forall k | k in at.closing + at.conns
      ensures k < |s.conns| && k < |Next(s, e).conns| && Next(s, e).conns[k] == s.conns[k]
    {
      OneIsLeftAlone(s, e, at, k);
    }
  }

  lemma {:induction false} RunSplits(s: State, a: seq<Step>, b: seq<Step>)
    requires Inv(s) && Legal(s, a + b)
    ensures Legal(s, a) && Legal(Run(s, a), b) && Run(s, a + b) == Run(Run(s, a), b)
    decreases |a|
  {
    if |a| == 0 {
      assert a + b == b;
    } else {
      assert (a + b)[1..] == a[1..] + b && (a + b)[0] == a[0];
      StepKeepsInv(s, a[0]);
      RunSplits(Next(s, a[0]), a[1..], b);
    }
  }

  // ------------------------------------------------------------------ the connection that is meant

  lemma NotReused(s: State, k: nat)
    requires Inv(s) && k < |s.conns| && !s.conns[k].life.Freed?
    ensures k < |MakeConn(s).conns| && MakeConn(s).conns[k] == s.conns[k]
  {
    if |s.freeConns| > 0 {
      assert Times(s.freeConns, s.freeConns[0]) >= 1;
    }
  }

  /** Handlers cannot free a connection that is held, or that they do not close. */
  lemma StaysForAStep(s: State, e: Step, k: nat)
    requires Inv(s) && Enabled(s, e) && ByHandler(e, NOTHING) && k < |s.conns| && !s.conns[k].life.Freed?
    requires s.busy == k || e != CloseEnd(k)
    ensures Next(s, e).busy == s.busy && k < |Next(s, e).conns|
    ensures !Next(s, e).conns[k].life.Freed? && Next(s, e).conns[k].born == s.conns[k].born
  {
    assert ConnOk(s, k);
    if e.NewConn? {
      NotReused(s, k);
    }
  }

  lemma {:induction false} StaysTheSame(s: State, did: seq<Step>, k: nat)
    requires Inv(s) && Legal(s, did) && (forall e :: e in did ==> ByHandler(e, NOTHING))
    requires k < |s.conns| && !s.conns[k].life.Freed? && (s.busy == k || CloseEnd(k) !in did)
    ensures var after := Run(s, did);
      k < |after.conns| && !after.conns[k].life.Freed? && after.conns[k].born == s.conns[k].born
    decreases |did|
  {
    if |did| > 0 {
      StaysForAStep(s, did[0], k);
      StepKeepsInv(s, did[0]);
      StaysTheSame(Next(s, did[0]), did[1..], k);
    }
  }

  /** What a handler may do: close a connection, and start another one. The first two numbers are
      the lengths of the queues. */
  function Recycling(k: nat, sends: nat, recvs: nat): seq<Step>
    decreases sends + recvs
  {
    if sends > 0 then [CloseDropSend(k)] + Recycling(k, sends - 1, recvs)
    else if recvs > 0 then [CloseDropRecv(k)] + Recycling(k, sends, recvs - 1)
    else [CloseEnd(k), ConnDestroyed(k), NewConn]
  }

  lemma {:induction false} RecyclingIsByHandler(k: nat, sends: nat, recvs: nat)
    ensures forall e :: e in Recycling(k, sends, recvs) ==> ByHandler(e, NOTHING)
    decreases sends + recvs
  {
    if sends > 0 {
      RecyclingIsByHandler(k, sends - 1, recvs);
    } else if recvs > 0 {
      RecyclingIsByHandler(k, sends, recvs - 1);
    }
  }

  lemma FirstOfMany(s: State, e: Step, es: seq<Step>)
    requires Inv(s) && Enabled(s, e) && Inv(Next(s, e)) && Legal(Next(s, e), es)
    ensures Legal(s, [e] + es) && Run(s, [e] + es) == Run(Next(s, e), es)
  {
    assert ([e] + es)[1..] == es;
  }

  /** The end of core_close, and of the destruction. */
  lemma Destroyed(s: State, k: nat) returns (t: State)
    requires Inv(s) && Enabled(s, CloseEnd(k)) && s.busy != k
    ensures Inv(t) && k < |t.conns| && t.made == s.made && |t.freeConns| > 0 && t.freeConns[0] == k
    ensures forall es :: Legal(t, es) ==>
              && Legal(s, [CloseEnd(k)] + ([ConnDestroyed(k)] + es))
              && Run(s, [CloseEnd(k)] + ([ConnDestroyed(k)] + es)) == Run(t, es)
  {
    EndClose(s, k);
    StepKeepsInv(s, CloseEnd(k));
    var mid := Next(s, CloseEnd(k));
    StepKeepsInv(mid, ConnDestroyed(k));
    t := Next(mid, ConnDestroyed(k));
    forall es | Legal(t, es)
      ensures Legal(s, [CloseEnd(k)] + ([ConnDestroyed(k)] + es))
      ensures Run(s, [CloseEnd(k)] + ([ConnDestroyed(k)] + es)) == Run(t, es)
    {
      FirstOfMany(mid, ConnDestroyed(k), es);
      FirstOfMany(s, CloseEnd(k), [ConnDestroyed(k)] + es);
    }
  }

  /** The place in memory is the first on the free list, so the next connection gets it. */
  lemma FreedIsRecycled(s: State, k: nat)
    requires Inv(s) && Enabled(s, CloseEnd(k)) && s.busy != k
    ensures var did := [CloseEnd(k), ConnDestroyed(k), NewConn];
      Legal(s, did) && k < |Run(s, did).conns| && Run(s, did).conns[k] == NewlyMade(s.made)
  {
    var t := Destroyed(s, k);
    assert [] + [NewConn] == [NewConn];
    RunMore(t, [], NewConn);
    assert [CloseEnd(k)] + ([ConnDestroyed(k)] + [NewConn]) == [CloseEnd(k), ConnDestroyed(k), NewConn];
  }

  lemma DropOne(s: State, k: nat) returns (e: Step, t: State)
    requires Inv(s) && k in s.closing && k < |s.conns| && (s.conns[k].sendq != [] || s.conns[k].recvq != [])
    ensures Inv(t) && k in t.closing && k < |t.conns| && t.busy == s.busy && t.made == s.made
    ensures |t.conns[k].sendq| + |t.conns[k].recvq| < |s.conns[k].sendq| + |s.conns[k].recvq|
    ensures Recycling(k, |s.conns[k].sendq|, |s.conns[k].recvq|)
         == [e] + Recycling(k, |t.conns[k].sendq|, |t.conns[k].recvq|)
    ensures forall es :: Legal(t, es) ==> Legal(s, [e] + es) && Run(s, [e] + es) == Run(t, es)
  {
    e := if s.conns[k].sendq != [] then CloseDropSend(k) else CloseDropRecv(k);
    StepKeepsInv(s, e);
    t := Next(s, e);
    forall es | Legal(t, es) ensures Legal(s, [e] + es) && Run(s, [e] + es) == Run(t, es) {
      FirstOfMany(s, e, es);
    }
  }

  lemma {:induction false} ClosingIsRecycled(s: State, k: nat)
    requires Inv(s) && k in s.closing && k < |s.conns| && s.busy != k
    ensures var did := Recycling(k, |s.conns[k].sendq|, |s.conns[k].recvq|);
      Legal(s, did) && k < |Run(s, did).conns| && Run(s, did).conns[k] == NewlyMade(s.made)
    decreases |s.conns[k].sendq| + |s.conns[k].recvq|
  {
    if s.conns[k].sendq == [] && s.conns[k].recvq == [] {
      FreedIsRecycled(s, k);
    } else {
      var e, t := DropOne(s, k);
      ClosingIsRecycled(t, k);
    }
  }

  /** A connection that core_loop does not hold can be closed by handlers, and its place taken by
      another one, which is live: the core_close that comes late would close that one. */
  lemma LateCloseCanHitAnother(s: State, k: nat) returns (did: seq<Step>)
    requires Inv(s) && Live(s, k) && s.busy != k
    ensures Legal(s, did) && (forall e :: e in did ==> ByHandler(e, NOTHING))
    ensures Live(Run(s, did), k) && Run(s, did).conns[k].born != s.conns[k].born
  {
    assert ConnOk(s, k);
    var x := s.conns[k];
    StepKeepsInv(s, CloseBegin(k));
    ClosingIsRecycled(Next(s, CloseBegin(k)), k);
    RecyclingIsByHandler(k, |x.sendq|, |x.recvq|);
    did := [CloseBegin(k)] + Recycling(k, |x.sendq|, |x.recvq|);
    FirstOfMany(s, CloseBegin(k), Recycling(k, |x.sendq|, |x.recvq|));
  }

  /** The connection that conn_failure or conn_timeout closes after the handlers is sure to be the
      one that they were called for exactly when core_loop holds it. */
  lemma MeantExactlyWhenHeld(s: State, k: nat)
    requires Inv(s) && Live(s, k)
    ensures s.busy == k <==> forall did :: Legal(s, did) && (forall e :: e in did ==> ByHandler(e, NOTHING)) ==>
              k < |Run(s, did).conns| && Run(s, did).conns[k].born == s.conns[k].born
  {
    if s.busy == k {
      forall did | Legal(s, did) && (forall e :: e in did ==> ByHandler(e, NOTHING))
        ensures k < |Run(s, did).conns| && Run(s, did).conns[k].born == s.conns[k].born
      {
        StaysTheSame(s, did, k);
      }
    } else {
      var did := LateCloseCanHitAnother(s, k);
    }
  }

  lemma {:induction false} RunMore(s: State, es: seq<Step>, e: Step)
    requires Inv(s) && Legal(s, es) && Enabled(Run(s, es), e)
    ensures Legal(s, es + [e]) && Run(s, es + [e]) == Next(Run(s, es), e)
    decreases |es|
  {
    if |es| == 0 {
      assert es + [e] == [e] && [e][1..] == [];
      StepKeepsInv(s, e);
    } else {
      StepKeepsInv(s, es[0]);
      RunMore(Next(s, es[0]), es[1..], e);
      assert (es + [e])[1..] == es[1..] + [e] && (es + [e])[0] == es[0];
    }
  }
}
