/** The session module of httperf as it is written: connection slots with ring buffers of pending
    calls, updated in place by event handlers. Each handler is proved to take the step that
    SessionModel gives for its event. */
module SessionEngine {
  import opened SessionModel

  datatype Entry = Empty | Holds(call: Call)

  class Conn {
    var sendq: seq<Call>
    var recvq: seq<Call>

    constructor ()
      ensures sendq == [] && recvq == []
    {
      sendq, recvq := [], [];
    }

    /** core_send: the call goes to the end of the send queue. */
    method Send(call: Call)
      modifies this
      ensures sendq == old(sendq) + [call] && recvq == old(recvq)
    {
      sendq := sendq + [call];
    }

    /** The end of do_send: the first call has been sent and waits for its reply. */
    method SendDone()
      requires sendq != []
      modifies this
      ensures sendq == old(sendq[1..]) && recvq == old(recvq) + [old(sendq[0])]
    {
      var call := sendq[0];
      sendq := sendq[1..];
      recvq := recvq + [call];
    }

    /** recv_done takes the first call off the receive queue. */
    method RecvDone() returns (call: Call)
      requires recvq != []
      modifies this
      ensures call == old(recvq[0]) && recvq == old(recvq[1..]) && sendq == old(sendq)
    {
      call := recvq[0];
      recvq := recvq[1..];
    }
  }

  /** The place in the ring of the call that is k places behind the one at rd. */
  function Around(rd: nat, k: nat): nat {
    if rd + k >= MAX_PIPED then rd + k - MAX_PIPED else rd + k
  }

  class ConnInfo {
    var conn: Conn?
    var isConnected: bool
    var isSuccessful: bool
    var numPending: nat
    var numSent: nat
    var rd: nat
    var wr: nat
    const ring: array<Entry>

    ghost function Repr(): set<object>
      reads this
    {
      {this, ring} + if conn == null then {} else {conn}
    }

    /** The ring holds the pending calls, oldest at `rd`, with room for the next at `wr`. */
    ghost predicate RingShows(pending: seq<Call>)
      reads this, ring
    {
      && ring.Length == MAX_PIPED && rd < MAX_PIPED && numPending == |pending| <= MAX_PIPED
      && wr == Around(rd, numPending)
      && forall k :: 0 <= k < numPending ==> ring[Around(rd, k)] == Holds(pending[k])
    }

    ghost predicate LinkShows(l: Link)
      reads this, conn
    {
      match l
      case Down => conn == null
      case Up(connected, successful, sendq, recvq) =>
        conn != null && isConnected == connected && isSuccessful == successful && conn.sendq == sendq
                  && conn.recvq == recvq
    }

    ghost predicate Shows(s: Slot)
      reads this, ring, conn
    {
      RingShows(s.pending) && numSent == s.sent && LinkShows(s.link)
    }

    constructor ()
      ensures Shows(Slot([], 0, Down)) && fresh(Repr())
    {
      conn, isConnected, isSuccessful := null, false, false;
      numPending, numSent, rd, wr := 0, 0, 0, 0;
      ring := new Entry[MAX_PIPED](_ => Empty);
    }

    /** create_conn, without its treatment of a refused attempt. */
    method CreateConn(a: Attempt, ghost s: Slot)
      requires Shows(s)
      modifies this
      ensures Shows(SessionModel.CreateConn(s, a)) && fresh(conn)
      decreases 1, 0
    {
      conn := new Conn();
      isConnected := false;
      isSuccessful := false;
      numSent := 0;
      if a.Instant? {
        ConnConnected(Slot(s.pending, 0, Up(false, false, [], [])));
      }
    }

    method ConnConnected(ghost s: Slot)
      requires Shows(s) && conn != null && s.sent <= |s.pending|
      modifies this`isConnected, this`numSent, conn
      ensures Shows(NowConnected(s))
      decreases 0, 1
    {
      isConnected := true;
      SendPending(s.(link := s.link.(connected := true)));
    }

    /** send_calls; `tried` says whether it had to create a connection. */
    method SendCalls(a: Attempt, ghost s: Slot) returns (tried: bool)
      requires Shows(s) && s.sent <= |s.pending|
      modifies this, conn
      ensures Shows(SessionModel.SendCalls(s, a)) && tried == s.link.Down?
      ensures conn == old(conn) || fresh(conn)
    {
      tried := conn == null;
      if conn == null {
        CreateConn(a, s);
        return;
      }
      if !isConnected {
        return;
      }
      SendPending(s);
    }

    /** The loop of send_calls. */
    method SendPending(ghost s: Slot)
      requires Shows(s) && conn != null && s.sent <= |s.pending|
      modifies this`numSent, conn
      ensures Shows(SendAll(s))
      decreases 0, 0
    {
      var next := (rd + numSent) % MAX_PIPED;
      var i := numSent;
      while i < numPending
        invariant i == numSent <= numPending && next == Around(rd, i)
        invariant s.sent <= i && RingShows(s.pending)
        invariant conn.sendq == s.link.sendq + s.pending[s.sent..i] && conn.recvq == s.link.recvq
      {
        assert ring[next] == Holds(s.pending[i]);
        conn.Send(ring[next].call);
        assert s.pending[s.sent..i + 1] == s.pending[s.sent..i] + [s.pending[i]];
        numSent := numSent + 1;
        next := (next + 1) % MAX_PIPED;
        i := i + 1;
      }
    }

    /** session_issue_call's insertion into the ring. */
    method Append(call: Call, ghost s: Slot)
      requires Shows(s) && numPending < MAX_PIPED
      modifies this`numPending, this`wr, ring
      ensures Shows(s.(pending := s.pending + [call]))
    {
      numPending := numPending + 1;
      ring[wr] := Holds(call);
      wr := (wr + 1) % MAX_PIPED;
    }

    /** recv_done, and the first half of call_done: the call whose reply is complete leaves the
        connection and the ring. */
    method TakeReply(p: Params, ghost s: Slot) returns (call: Call)
      requires Shows(s) && SlotOk(p, s) && s.link.Up? && s.link.recvq != []
      modifies this`isSuccessful, this`rd, this`numPending, this`numSent, conn, ring
      ensures s.pending != [] && s.sent > 0 && call == s.link.recvq[0] && Shows(Pop(s))
    {
      ReplyIsForFirstCall(p, s);
      call := conn.RecvDone();
      isSuccessful := true;
      assert Around(rd, 0) == rd && ring[rd] == Holds(s.pending[0]);
      assert ring[rd] == Holds(call) && numPending > 0 && numSent > 0;
      RemoveFirst(s.pending);
    }

    /** core_close, and no connection any more. */
    method Drop(ghost s: Slot)
      requires Shows(s) && conn != null
      modifies this`conn, conn
      ensures Shows(s.(link := Down)) && conn == null && old(conn).sendq == [] == old(conn).recvq
    {
      conn.sendq, conn.recvq := [], [];
      conn := null;
    }

    method RemoveFirst(ghost pending: seq<Call>)
      requires RingShows(pending) && pending != [] && numSent > 0
      modifies this`rd, this`numPending, this`numSent, ring
      ensures RingShows(pending[1..]) && numSent == old(numSent) - 1 && ring[old(rd)] == Empty
    {
      ring[rd] := Empty;
      rd := (rd + 1) % MAX_PIPED;
      numPending := numPending - 1;
      numSent := numSent - 1;
    }
  }

  class Sess {
    const p: Params
    const infos: seq<ConnInfo>
    var status: Status
    /** What the session looks like, in SessionModel. */
    ghost var s: Session
    /** Everything the slots use. */
    ghost var repr: set<object>

    ghost predicate SlotShows(i: nat)
      requires i < |infos| && |infos| == |s.slots|
      reads this, infos, repr
    {
      infos[i].Repr() <= repr && infos[i].Shows(s.slots[i])
    }

    ghost predicate Valid()
      reads this, infos, repr
    {
      && |infos| == |s.slots| && status == s.status && p.maxPiped <= MAX_PIPED && this !in repr
      && (forall i, j :: 0 <= i < |infos| && 0 <= j < |infos| && i != j ==> infos[i].Repr() !! infos[j].Repr())
      && (forall i :: 0 <= i < |infos| ==> SlotShows(i))
    }

    constructor (p: Params)
      requires Allowed(p)
      ensures Valid() && this.p == p && s == Init(p) && Inv(p, s) && fresh(repr)
    {
      var conns: seq<ConnInfo> := [];
      ghost var used: set<object> := {};
      while |conns| < p.maxConns
        invariant |conns| <= p.maxConns && fresh(used)
        invariant forall i :: 0 <= i < |conns| ==> conns[i].Repr() <= used && conns[i].Shows(Slot([], 0, Down))
        invariant forall i, j :: 0 <= i < |conns| && 0 <= j < |conns| && i != j ==> conns[i].Repr() !! conns[j].Repr()
      {
        var c := new ConnInfo();
        conns := conns + [c];
        used := used + c.Repr();
      }
      this.p := p;
      infos := conns;
      status := Running;
      s := Init(p);
      repr := used;
    }

    /** Slot i shows something else, and the other slots are as before. */
    twostate predicate Changed(new i: nat, new slot: Slot)
      requires i < |infos|
      reads this, infos, repr, infos[i].ring, infos[i].conn
    {
      && infos[i].Shows(slot) && (infos[i].conn == null || infos[i].conn == old(infos[i].conn) || fresh(infos[i].conn))
      && s == old(s) && repr == old(repr) && status == old(status)
      && forall o :: o in repr && o !in old(infos[i].Repr()) ==> unchanged(o)
    }

    /** Another slot is not affected. */
    twostate lemma OtherSlot(new i: nat, new slot: Slot, new j: nat)
      requires old(Valid()) && i < |infos| && j < |infos| && j != i && Changed(i, slot)
      ensures infos[j].Repr() == old(infos[j].Repr()) && infos[j].Repr() !! infos[i].Repr() && SlotShows(j)
    {
      assert old(SlotShows(j)) && old(infos[j].Repr()) !! old(infos[i].Repr());
      assert unchanged(infos[j]) && unchanged(infos[j].ring) && (infos[j].conn != null ==> unchanged(infos[j].conn));
    }

    /** All is well but that slot i shows something new. */
    ghost predicate ValidBut(i: nat, slot: Slot)
      requires i < |infos|
      reads this, infos, repr, infos[i].ring, infos[i].conn
    {
      && |infos| == |s.slots| && p.maxPiped <= MAX_PIPED && this !in repr && this !in infos[i].Repr()
      && (forall k, j :: 0 <= k < |infos| && 0 <= j < |infos| && k != j ==> infos[k].Repr() !! infos[j].Repr())
      && infos[i].Shows(slot)
      && (forall j :: 0 <= j < |infos| && j != i ==> SlotShows(j))
    }

    twostate lemma OneSlot(new i: nat, new slot: Slot)
      requires old(Valid()) && i < |infos| && Changed(i, slot)
      ensures ValidBut(i, slot)
    {
      forall j | 0 <= j < |infos| && j != i ensures infos[j].Repr() == old(infos[j].Repr())
                && infos[j].Repr() !! infos[i].Repr() && SlotShows(j) {
        OtherSlot(i, slot, j);
      }
      assert old(SlotShows(i));
    }

    ghost method Note(i: nat, slot: Slot)
      requires i < |infos| && ValidBut(i, slot) && status == s.status
      modifies this`s, this`repr
      ensures Valid() && s == old(s).(slots := old(s.slots)[i := slot]) && repr == old(repr) + infos[i].Repr()
    {
      s := s.(slots := s.slots[i := slot]);
      repr := repr + infos[i].Repr();
      forall j | 0 <= j < |infos| ensures SlotShows(j) {
        if j != i {
          assert old(SlotShows(j)) && old(infos[j].Shows(s.slots[j]));
        }
      }
    }

    /** EV_CONN_CONNECTED. */
    method ConnConnected(i: nat)
      requires Valid() && Inv(p, s) && Enabled(s, Connected(i))
      modifies this, repr
      ensures Valid() && Inv(p, s) && s == Step(p, old(s), Connected(i)) && fresh(repr - old(repr))
    {
      StepKeepsInv(p, s, Connected(i));
      assert SlotShows(i);
      infos[i].ConnConnected(s.slots[i]);
      OneSlot(i, NowConnected(s.slots[i]));
      Note(i, NowConnected(s.slots[i]));
    }

    /** The end of do_send. */
    method SendDone(i: nat)
      requires Valid() && Inv(p, s) && Enabled(s, Event.SendDone(i))
      modifies this, repr
      ensures Valid() && Inv(p, s) && s == Step(p, old(s), Event.SendDone(i)) && fresh(repr - old(repr))
    {
      ghost var after := Step(p, s, Event.SendDone(i)).slots[i];
      StepKeepsInv(p, s, Event.SendDone(i));
      assert SlotShows(i);
      infos[i].conn.SendDone();
      OneSlot(i, after);
      Note(i, after);
    }

    /** sess_failure, and the exit of session_issue_call. */
    method SetStatus(status: Status)
      requires Valid()
      modifies this`status, this`s
      ensures Valid() && s == old(s).(status := status)
    {
      this.status := status;
      s := s.(status := status);
      forall j | 0 <= j < |infos| ensures SlotShows(j) {
        assert old(SlotShows(j));
      }
    }

    /** EV_CONN_TIMEOUT. */
    method ConnTimeout(i: nat)
      requires Valid() && Inv(p, s) && Enabled(s, TimedOut(i))
      modifies this, repr
      ensures Valid() && Inv(p, s) && s == Step(p, old(s), TimedOut(i)) && fresh(repr - old(repr))
    {
      SetStatus(Failed);
    }

    /** EV_CONN_FAILED. */
    method ConnFailed(i: nat, a: Attempt)
      requires Valid() && Inv(p, s) && Enabled(s, Event.ConnFailed(i, a))
      modifies this, repr
      ensures Valid() && Inv(p, s) && s == Step(p, old(s), Event.ConnFailed(i, a)) && fresh(repr - old(repr))
    {
      StepKeepsInv(p, s, Event.ConnFailed(i, a));
      assert SlotShows(i);
      if infos[i].isSuccessful || p.retryOnFailure {
        infos[i].CreateConn(a, s.slots[i]);
        OneSlot(i, SessionModel.CreateConn(s.slots[i], a));
        Note(i, SessionModel.CreateConn(s.slots[i], a));
        if a.Refused? {
          SetStatus(Failed);
        }
      } else {
        SetStatus(Failed);
      }
    }

    /** session_issue_call. */
    method IssueCall(call: Call, a: Attempt)
      requires Valid() && Sane(s)
      modifies this, repr
      ensures Valid() && s == SessionModel.IssueCall(p, old(s), call, a) && fresh(repr - old(repr))
    {
      var i := 0;
      while i < |infos|
        invariant i <= |infos| && FirstWithRoom(s.slots, p.maxPiped, 0) == FirstWithRoom(s.slots, p.maxPiped, i)
        invariant Valid() && s == old(s) && repr == old(repr)
      {
        assert SlotShows(i);
        if infos[i].numPending < p.maxPiped {
          ghost var slot := s.slots[i].(pending := s.slots[i].pending + [call]);
          infos[i].Append(call, s.slots[i]);
          var tried := infos[i].SendCalls(a, slot);
          OneSlot(i, SessionModel.SendCalls(slot, a));
          Note(i, SessionModel.SendCalls(slot, a));
          if tried && a.Refused? && status.Running? {
            SetStatus(Failed);
          }
          return;
        }
        i := i + 1;
      }
      SetStatus(Exited);
    }

    /** session_issue_call, for a call that is not pending. */
    method SessionIssueCall(call: Call, a: Attempt)
      requires Valid() && Inv(p, s) && Enabled(s, Issue(call, a))
      modifies this, repr
      ensures Valid() && Inv(p, s) && s == Step(p, old(s), Issue(call, a)) && fresh(repr - old(repr))
    {
      StepKeepsInv(p, s, Issue(call, a));
      StepIsIssue(p, s, call, a);
      NoteLogs(s.issued + multiset{call}, s.completed);
      IssueCall(call, a);
    }

    ghost method NoteLogs(issued: multiset<Call>, completed: multiset<Call>)
      requires Valid()
      modifies this`s
      ensures Valid() && s == old(s).(issued := issued, completed := completed)
    {
      s := s.(issued := issued, completed := completed);
      forall j | 0 <= j < |infos| ensures SlotShows(j) {
        assert old(SlotShows(j));
      }
    }

    /** The end of a reply with this status code. */
    method ReplyDone(i: nat, code: int, a: Attempt)
      requires Valid() && Inv(p, s) && Enabled(s, Event.ReplyDone(i, code, a))
      modifies this, repr
      ensures Valid() && Inv(p, s) && s == Step(p, old(s), Event.ReplyDone(i, code, a)) && fresh(repr - old(repr))
    {
      StepKeepsInv(p, s, Event.ReplyDone(i, code, a));
      ReplyIsForFirstCall(p, s.slots[i]);
      CallDone(i, code, a);
    }

    /** recv_done and call_done. */
    method CallDone(i: nat, code: int, a: Attempt)
      requires Valid() && Sane(s) && i < |infos| && SlotOk(p, s.slots[i]) && s.slots[i].link.Up?
                && s.slots[i].link.recvq != []
      requires s.slots[i].pending != [] && s.slots[i].sent > 0
      modifies this, repr
      ensures Valid() && s == SessionModel.CallDone(p, old(s), i, code, a) && fresh(repr - old(repr))
    {
      var call := RecvDone(i);
      StaysUp(p, s, call, i, code, a);
      DisposeOf(call, code, a);
      if p.httpVersion < 0x10001 {
        Close(i);
      }
    }

    method RecvDone(i: nat) returns (call: Call)
      requires Valid() && i < |infos| && SlotOk(p, s.slots[i]) && s.slots[i].link.Up? && s.slots[i].link.recvq != []
      modifies this, repr
      ensures Valid() && call == old(s.slots[i].link.recvq[0]) && fresh(repr - old(repr))
      ensures old(s.slots[i]).pending != [] && old(s.slots[i]).sent > 0
      ensures s == old(s).(slots := old(s.slots)[i := Pop(old(s.slots[i]))])
    {
      assert SlotShows(i);
      call := infos[i].TakeReply(p, s.slots[i]);
      OneSlot(i, Pop(s.slots[i]));
      Note(i, Pop(s.slots[i]));
    }

    /** call_done's treatment of a reply status that counts as failure. */
    method DisposeOf(call: Call, code: int, a: Attempt)
      requires Valid() && Sane(s)
      modifies this, repr
      ensures Valid() && s == Dispose(p, old(s), call, code, a) && fresh(repr - old(repr))
    {
      if p.failureStatus != 0 && code == p.failureStatus {
        if p.retryOnFailure {
          IssueCall(call, a);
          return;
        }
        SetStatus(Failed);
      }
      NoteLogs(s.issued, s.completed + multiset{call});
    }

    method Close(i: nat)
      requires Valid() && i < |infos| && s.slots[i].link.Up?
      modifies this, repr
      ensures Valid() && s == old(s).(slots := old(s.slots)[i := old(s.slots[i]).(link := Down)])
                && fresh(repr - old(repr))
    {
      assert SlotShows(i);
      infos[i].Drop(s.slots[i]);
      OneSlot(i, s.slots[i].(link := Down));
      Note(i, s.slots[i].(link := Down));
    }

    /** session_current_qlen. */
    method CurrentQlen() returns (n: nat)
      requires Valid()
      ensures n == |AllPending(s.slots)|
    {
      n := 0;
      var i := 0;
      while i < |infos|
        invariant i <= |infos| && n + |AllPending(s.slots[i..])| == |AllPending(s.slots)|
      {
        assert SlotShows(i) && s.slots[i..][1..] == s.slots[i + 1..];
        n := n + infos[i].numPending;
        i := i + 1;
      }
    }
  }

  lemma StaysUp(p: Params, s: Session, call: Call, i: nat, code: int, a: Attempt)
    requires Sane(s) && i < |s.slots| && s.slots[i].link.Up?
    ensures |Dispose(p, s, call, code, a).slots| == |s.slots| && Dispose(p, s, call, code, a).slots[i].link.Up?
  {
  }

  lemma StepIsIssue(p: Params, s: Session, call: Call, a: Attempt)
    requires Inv(p, s) && Enabled(s, Issue(call, a))
    ensures Sane(s.(issued := s.issued + multiset{call}))
    ensures Step(p, s, Issue(call, a)) == IssueCall(p, s.(issued := s.issued + multiset{call}), call, a)
  {
  }
}
