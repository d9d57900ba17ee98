/** Reference counts of calls and connections in httperf: who holds what, and what core_close,
    do_send and recv_done do with the references that the queues of a connection hold. */
module RefCounts {

  datatype Life = Open | Closing | Freed

  /** A connection: its reference count, whether its socket is open, its two queues of calls, and
      whether it has a watchdog timer. Its place in memory can be used again for another one;
      `born` tells them apart. */
  datatype Conn = Conn(life: Life, refs: nat, socket: bool, sendq: seq<nat>, recvq: seq<nat>, watchdog: bool, born: nat)

  /** A call that do_send has taken off the send queue, or recv_done off the receive queue, while
      the event handlers run. */
  datatype Frame = NoFrame | Sending(call: nat) | Receiving(call: nat)

  /** The objects, with a free list per type, and who holds calls besides the queues: creators,
      and the rings of sessions. The dying are those whose last reference is gone and whose handlers
      of destruction run; they are put on the free list after that. `made` counts the connections
      there have been; `closing` are those that core_close is working on; `busy` is the connection
      that core_loop is working on. */
  datatype State = State(
    calls: seq<nat>, freeCalls: seq<nat>, dyingCalls: set<nat>,
    conns: seq<Conn>, freeConns: seq<nat>, dyingConns: set<nat>, made: nat,
    creators: multiset<nat>, rings: multiset<nat>,
    closing: set<nat>, busy: int, frame: Frame)

  datatype Step =
    | NewCall | DropCall(c: nat) | RingAdd(c: nat) | RingRemove(c: nat)
    | NewConn | Connect(k: nat) | Watch(k: nat) | Unwatch(k: nat)
    | Send(k: nat, c: nat)
    | LoopBegin(k: nat) | LoopEnd
    | SendStop | SendResume | RecvStop | RecvResume
    | CallDestroyed(c: nat) | ConnDestroyed(k: nat)
    | CloseBegin(k: nat) | CloseDropSend(k: nat) | CloseDropRecv(k: nat) | CloseEnd(k: nat)

  predicate Live(s: State, k: nat) {
    k < |s.conns| && s.conns[k].life.Open?
  }

  predicate IsCall(s: State, c: nat) {
    c < |s.calls| && s.calls[c] > 0
  }

  predicate Enabled(s: State, e: Step) {
    match e
    case NewCall => true
    case DropCall(c) => c in s.creators
    case RingAdd(c) => IsCall(s, c)
    case RingRemove(c) => c in s.rings
    case NewConn => true
    case Connect(k) => Live(s, k)
    case Watch(k) => Live(s, k)
    case Unwatch(k) => Live(s, k)
    case Send(k, c) => Live(s, k) && IsCall(s, c)
    case LoopBegin(k) => s.busy == -1 && Live(s, k)
    case LoopEnd => s.busy >= 0 && s.frame.NoFrame?
    case SendStop => s.frame.NoFrame? && s.busy >= 0 && Live(s, s.busy) && s.conns[s.busy].sendq != []
    case SendResume => s.frame.Sending?
    case RecvStop => s.frame.NoFrame? && s.busy >= 0 && Live(s, s.busy) && s.conns[s.busy].recvq != []
    case RecvResume => s.frame.Receiving?
    case CallDestroyed(c) => c in s.dyingCalls
    case ConnDestroyed(k) => k in s.dyingConns
    case CloseBegin(k) => Live(s, k)
    case CloseDropSend(k) => k in s.closing && k < |s.conns| && s.conns[k].sendq != []
    case CloseDropRecv(k) => k in s.closing && k < |s.conns| && s.conns[k].sendq == [] && s.conns[k].recvq != []
    case CloseEnd(k) => k in s.closing && k < |s.conns| && s.conns[k].sendq == [] && s.conns[k].recvq == []
  }

  // ------------------------------------------------------------------ steps

  /** call_dec_ref: at zero the destruction of the call begins. */
  function DecCall(s: State, c: nat): State
    requires IsCall(s, c)
  {
    s.(calls := s.calls[c := s.calls[c] - 1],
       dyingCalls := if s.calls[c] == 1 then s.dyingCalls + {c} else s.dyingCalls)
  }

  function IncCall(s: State, c: nat): State
    requires c < |s.calls|
  {
    s.(calls := s.calls[c := s.calls[c] + 1])
  }

  function SetConn(s: State, k: nat, x: Conn): State
    requires k < |s.conns|
  {
    s.(conns := s.conns[k := x])
  }

  /** conn_dec_ref: at zero conn_deinit checks its assertions and marks the connection free. */
  function DecConn(s: State, k: nat): State
    requires k < |s.conns| && s.conns[k].refs > 0
  {
    var x := s.conns[k].(refs := s.conns[k].refs - 1);
    if x.refs > 0 then SetConn(s, k, x) else SetConn(s, k, x.(life := Freed)).(dyingConns := s.dyingConns + {k})
  }

  /** The assertions of conn_deinit. */
  predicate DeinitOk(x: Conn) {
    !x.socket && !x.life.Freed? && x.sendq == [] && x.recvq == [] && !x.watchdog
  }

  function NewlyMade(born: nat): Conn {
    Conn(Open, 1, false, [], [], false, born)
  }

  /** object_new for a call, which takes its memory off the free list if it can. */
  function MakeCall(s: State): State
    requires forall i :: 0 <= i < |s.freeCalls| ==> s.freeCalls[i] < |s.calls|
  {
    if |s.freeCalls| > 0
    then s.(calls := s.calls[s.freeCalls[0] := 1], freeCalls := s.freeCalls[1..],
            creators := s.creators + multiset{s.freeCalls[0]})
    else s.(calls := s.calls + [1], creators := s.creators + multiset{|s.calls|})
  }

  function MakeConn(s: State): State
    requires forall i :: 0 <= i < |s.freeConns| ==> s.freeConns[i] < |s.conns|
  {
    if |s.freeConns| > 0
    then s.(conns := s.conns[s.freeConns[0] := NewlyMade(s.made)], freeConns := s.freeConns[1..], made := s.made + 1)
    else s.(conns := s.conns + [NewlyMade(s.made)], made := s.made + 1)
  }

  function Next(s: State, e: Step): State
    requires Inv(s) && Enabled(s, e)
  {
    match e
    case NewCall => MakeCall(s)
    case DropCall(c) => HeldIsCall(s, c); DecCall(s, c).(creators := s.creators - multiset{c})
    case RingAdd(c) => IncCall(s, c).(rings := s.rings + multiset{c})
    case RingRemove(c) => HeldIsCall(s, c); DecCall(s, c).(rings := s.rings - multiset{c})
    case NewConn => MakeConn(s)
    case Connect(k) => SetConn(s, k, s.conns[k].(socket := true))
    case Watch(k) => SetConn(s, k, s.conns[k].(watchdog := true))
    case Unwatch(k) => SetConn(s, k, s.conns[k].(watchdog := false))
    case Send(k, c) => SetConn(IncCall(s, c), k, s.conns[k].(sendq := s.conns[k].sendq + [c]))
    case LoopBegin(k) => SetConn(s, k, s.conns[k].(refs := s.conns[k].refs + 1)).(busy := k)
    case LoopEnd => assert ConnOk(s, s.busy); DecConn(s, s.busy).(busy := -1)
    case SendStop =>
      var x := s.conns[s.busy];
      SetConn(s, s.busy, x.(sendq := x.sendq[1..])).(frame := Sending(x.sendq[0]))
    case SendResume =>
      var x := s.conns[s.busy];
      if x.life.Open? then SetConn(s, s.busy, x.(recvq := x.recvq + [s.frame.call])).(frame := NoFrame)
      else HeldIsCall(s, s.frame.call); DecCall(s, s.frame.call).(frame := NoFrame)
    case RecvStop =>
      var x := s.conns[s.busy];
      SetConn(s, s.busy, x.(recvq := x.recvq[1..])).(frame := Receiving(x.recvq[0]))
    case RecvResume => HeldIsCall(s, s.frame.call); DecCall(s, s.frame.call).(frame := NoFrame)
    case CallDestroyed(c) => s.(freeCalls := [c] + s.freeCalls, dyingCalls := s.dyingCalls - {c})
    case ConnDestroyed(k) => s.(freeConns := [k] + s.freeConns, dyingConns := s.dyingConns - {k})
    case CloseBegin(k) => SetConn(s, k, s.conns[k].(life := Closing, watchdog := false)).(closing := s.closing + {k})
    case CloseDropSend(k) =>
      var x := s.conns[k];
      QueuedIsHeld(s.conns, k, x.sendq[0]);
      HeldIsCall(s, x.sendq[0]);
      DecCall(SetConn(s, k, x.(sendq := x.sendq[1..])), x.sendq[0])
    case CloseDropRecv(k) =>
      var x := s.conns[k];
      QueuedIsHeld(s.conns, k, x.recvq[0]);
      HeldIsCall(s, x.recvq[0]);
      DecCall(SetConn(s, k, x.(recvq := x.recvq[1..])), x.recvq[0])
    case CloseEnd(k) =>
      assert ConnOk(s, k);
      DecConn(SetConn(s, k, s.conns[k].(socket := false)), k).(closing := s.closing - {k})
  }

  // ------------------------------------------------------------------ what is kept

  function Times(q: seq<nat>, c: nat): nat {
    if |q| == 0 then 0 else (if q[0] == c then 1 else 0) + Times(q[1..], c)
  }

  /** How many places in queues a call has. */
  function InQueues(conns: seq<Conn>, c: nat): nat {
    if |conns| == 0 then 0 else Times(conns[0].sendq, c) + Times(conns[0].recvq, c) + InQueues(conns[1..], c)
  }

  function InFrame(f: Frame, c: nat): nat {
    if !f.NoFrame? && f.call == c then 1 else 0
  }

  /** Who holds a call. */
  function Holders(s: State, c: nat): nat {
    s.creators[c] + s.rings[c] + InFrame(s.frame, c) + InQueues(s.conns, c)
  }

  /** Who holds a connection: whoever made it, until core_close is done with it, and core_loop. */
  function ConnHolders(s: State, k: nat): nat
    requires k < |s.conns|
  {
    (if s.conns[k].life.Open? || k in s.closing then 1 else 0) + if s.busy == k then 1 else 0
  }

  ghost predicate CallsOk(s: State) {
    forall c: nat :: Holders(s, c) == if c < |s.calls| then s.calls[c] else 0
  }

  predicate ConnOk(s: State, k: nat)
    requires k < |s.conns|
  {
    && s.conns[k].refs == ConnHolders(s, k) && (s.conns[k].life.Freed? <==> s.conns[k].refs == 0)
    && (k in s.closing ==> s.conns[k].life.Closing?)
    && (!s.conns[k].life.Open? ==> !s.conns[k].watchdog) && s.conns[k].born < s.made
    && (!s.conns[k].life.Open? && k !in s.closing ==>
          s.conns[k].sendq == [] && s.conns[k].recvq == [] && !s.conns[k].socket)
  }

  /** Destroyed, and free to be used again. */
  predicate CallIsFree(s: State, c: nat) {
    c < |s.calls| && s.calls[c] == 0 && c !in s.dyingCalls
  }

  predicate ConnIsFree(s: State, k: nat) {
    k < |s.conns| && s.conns[k].life.Freed? && k !in s.dyingConns
  }

  /** A free list has every free object once. */
  ghost predicate FreeCallsOk(s: State) {
    && (forall c: nat :: Times(s.freeCalls, c) == if CallIsFree(s, c) then 1 else 0)
    && (forall i :: 0 <= i < |s.freeCalls| ==> s.freeCalls[i] < |s.calls|)
    && (forall c :: c in s.dyingCalls ==> c < |s.calls| && s.calls[c] == 0)
  }

  ghost predicate FreeConnsOk(s: State) {
    && (forall k: nat :: Times(s.freeConns, k) == if ConnIsFree(s, k) then 1 else 0)
    && (forall i :: 0 <= i < |s.freeConns| ==> s.freeConns[i] < |s.conns|)
    && (forall k :: k in s.dyingConns ==> k < |s.conns| && s.conns[k].life.Freed?)
  }

  predicate ConnsOk(s: State) {
    && (forall k :: 0 <= k < |s.conns| ==> ConnOk(s, k))
    && -1 <= s.busy < |s.conns| && (s.frame.NoFrame? || s.busy >= 0) && forall k :: k in s.closing ==> k < |s.conns|
  }

  ghost predicate Inv(s: State) {
    CallsOk(s) && FreeCallsOk(s) && ConnsOk(s) && FreeConnsOk(s)
  }

  lemma {:induction false} QueuedIsHeld(conns: seq<Conn>, k: nat, c: nat)
    requires k < |conns|
    ensures InQueues(conns, c) >= Times(conns[k].sendq, c) + Times(conns[k].recvq, c)
  {
    if k > 0 {
      QueuedIsHeld(conns[1..], k - 1, c);
    }
  }

  /** Whatever somebody holds is allocated. */
  lemma HeldIsCall(s: State, c: nat)
    requires CallsOk(s)
    ensures Holders(s, c) > 0 ==> IsCall(s, c)
  {
  }

  // ------------------------------------------------------------------ every step keeps it

  lemma {:induction false} InQueuesUpdate(conns: seq<Conn>, k: nat, x: Conn, c: nat)
    requires k < |conns|
    ensures InQueues(conns[k := x], c) + Times(conns[k].sendq, c) + Times(conns[k].recvq, c)
         == InQueues(conns, c) + Times(x.sendq, c) + Times(x.recvq, c)
  {
    if k > 0 {
      InQueuesUpdate(conns[1..], k - 1, x, c);
      assert conns[k := x][1..] == conns[1..][k - 1 := x];
    } else {
      assert conns[0 := x][1..] == conns[1..];
    }
  }

  lemma {:induction false} InQueuesAppend(conns: seq<Conn>, x: Conn, c: nat)
    ensures InQueues(conns + [x], c) == InQueues(conns, c) + Times(x.sendq, c) + Times(x.recvq, c)
  {
    if |conns| == 0 {
      assert conns + [x] == [x] && [x][1..] == [];
    } else {
      assert (conns + [x])[1..] == conns[1..] + [x];
      InQueuesAppend(conns[1..], x, c);
    }
  }

  lemma {:induction false} TimesAppend(q: seq<nat>, y: nat, c: nat)
    ensures Times(q + [y], c) == Times(q, c) + if y == c then 1 else 0
  {
    if |q| == 0 {
      assert q + [y] == [y] && [y][1..] == [];
    } else {
      assert (q + [y])[1..] == q[1..] + [y];
      TimesAppend(q[1..], y, c);
    }
  }

  lemma TimesCons(q: seq<nat>, y: nat, c: nat)
    ensures Times([y] + q, c) == Times(q, c) + if y == c then 1 else 0
  {
    assert ([y] + q)[1..] == q;
  }

  /** One holder of a call less. */
  lemma DecKeeps(s: State, t: State, c: nat)
    requires CallsOk(s) && FreeCallsOk(s) && IsCall(s, c) && t.calls == s.calls && t.freeCalls == s.freeCalls
    requires t.dyingCalls == s.dyingCalls
    requires forall x: nat :: Holders(t, x) + (if x == c then 1 else 0) == Holders(s, x)
    ensures CallsOk(DecCall(t, c)) && FreeCallsOk(DecCall(t, c))
  {
    var after := DecCall(t, c);
    forall x: nat ensures Holders(after, x) == if x < |after.calls| then after.calls[x] else 0 {
      assert Holders(after, x) == Holders(t, x);
    }
    forall x: nat ensures Times(after.freeCalls, x) == if CallIsFree(after, x) then 1 else 0 {
      assert Times(s.freeCalls, x) == if CallIsFree(s, x) then 1 else 0;
    }
  }

  /** One holder of a call more. */
  lemma IncKeeps(s: State, after: State, c: nat)
    requires CallsOk(s) && FreeCallsOk(s) && IsCall(s, c)
    requires after.calls == s.calls[c := s.calls[c] + 1]
    requires after.freeCalls == s.freeCalls && after.dyingCalls == s.dyingCalls
    requires forall x: nat :: Holders(after, x) == Holders(s, x) + if x == c then 1 else 0
    ensures CallsOk(after) && FreeCallsOk(after)
  {
    forall x: nat ensures Times(after.freeCalls, x) == if CallIsFree(after, x) then 1 else 0 {
      assert Times(s.freeCalls, x) == if CallIsFree(s, x) then 1 else 0;
    }
  }

  /** The same holders. */
  lemma SameKeeps(s: State, after: State)
    requires CallsOk(s) && FreeCallsOk(s) && after.calls == s.calls
    requires after.freeCalls == s.freeCalls && after.dyingCalls == s.dyingCalls
    requires forall x: nat :: Holders(after, x) == Holders(s, x)
    ensures CallsOk(after) && FreeCallsOk(after)
  {
    forall x: nat ensures CallIsFree(after, x) == CallIsFree(s, x) {
    }
  }

  /** A connection changes, but its life goes on. */
  lemma SetConnKeeps(s: State, after: State, k: nat, x: Conn)
    requires ConnsOk(s) && FreeConnsOk(s) && k < |s.conns| && after.conns == s.conns[k := x]
              && after.freeConns == s.freeConns && after.dyingConns == s.dyingConns && after.made == s.made
    requires x.life.Freed? == s.conns[k].life.Freed?
    requires forall j :: 0 <= j < |s.conns| && j != k ==>
               (j in after.closing <==> j in s.closing) && (after.busy == j <==> s.busy == j)
    requires ConnOk(after, k) && -1 <= after.busy < |s.conns| && (after.frame.NoFrame? || after.busy >= 0)
    requires forall j :: j in after.closing ==> j < |s.conns|
    ensures ConnsOk(after) && FreeConnsOk(after)
  {
    forall j | 0 <= j < |after.conns| ensures ConnOk(after, j) {
      assert ConnOk(s, j);
    }
    forall j: nat ensures ConnIsFree(after, j) == ConnIsFree(s, j) {
    }
  }

  /** One holder of a connection less; the last one frees it. */
  lemma DecConnKeeps(s: State, t: State, after: State, k: nat)
    requires ConnsOk(s) && FreeConnsOk(s) && k < |s.conns| && |t.conns| == |s.conns| && s.conns[k].refs > 0
    requires t.conns == s.conns[k := t.conns[k]] && t.conns[k].refs == s.conns[k].refs
              && t.conns[k].life == s.conns[k].life
    requires t.freeConns == s.freeConns && t.dyingConns == s.dyingConns && t.made == s.made
    requires after == DecConn(t, k).(closing := after.closing, busy := after.busy, frame := s.frame)
    requires forall j :: 0 <= j < |s.conns| && j != k ==>
               (j in after.closing <==> j in s.closing) && (after.busy == j <==> s.busy == j)
    requires -1 <= after.busy < |s.conns| && (after.frame.NoFrame? || after.busy >= 0)
              && forall j :: j in after.closing ==> j < |s.conns|
    requires ConnOk(after, k)
    ensures ConnsOk(after) && FreeConnsOk(after)
  {
    forall j | 0 <= j < |after.conns| ensures ConnOk(after, j) {
      assert ConnOk(s, j);
    }
    forall j: nat ensures Times(after.freeConns, j) == if ConnIsFree(after, j) then 1 else 0 {
      assert Times(s.freeConns, j) == if ConnIsFree(s, j) then 1 else 0;
      assert j == k ==> ConnOk(s, k);
    }
  }

  lemma MakeCallKeeps(s: State)
    requires Inv(s)
    ensures Inv(MakeCall(s))
  {
    var after := MakeCall(s);
    var c := if |s.freeCalls| > 0 then s.freeCalls[0] else |s.calls|;
    assert Times(s.freeCalls, c) == if |s.freeCalls| > 0 then 1 + Times(s.freeCalls[1..], c) else 0;
    forall x: nat ensures Holders(after, x) == if x < |after.calls| then after.calls[x] else 0 {
      assert Holders(after, x) == Holders(s, x) + if x == c then 1 else 0;
    }
    forall j | 0 <= j < |after.conns| ensures ConnOk(after, j) {
      assert ConnOk(s, j);
    }
    assert FreeCallsOk(after) by {
      forall x: nat ensures Times(after.freeCalls, x) == if CallIsFree(after, x) then 1 else 0 {
        assert Times(s.freeCalls, x) == if CallIsFree(s, x) then 1 else 0;
      }
    }
  }

  lemma MakeConnKeeps(s: State)
    requires Inv(s)
    ensures Inv(MakeConn(s))
  {
    var after := MakeConn(s);
    var k := if |s.freeConns| > 0 then s.freeConns[0] else |s.conns|;
    assert Times(s.freeConns, k) == if |s.freeConns| > 0 then 1 + Times(s.freeConns[1..], k) else 0;
    assert k < |s.conns| ==> ConnOk(s, k);
    forall c: nat ensures Holders(after, c) == Holders(s, c) {
      var x := NewlyMade(s.made);
      if k < |s.conns| { InQueuesUpdate(s.conns, k, x, c); } else { InQueuesAppend(s.conns, x, c); }
    }
    SameKeeps(s, after);
    forall j | 0 <= j < |after.conns| ensures ConnOk(after, j) {
      assert j < |s.conns| ==> ConnOk(s, j);
    }
    forall j: nat ensures Times(after.freeConns, j) == if ConnIsFree(after, j) then 1 else 0 {
      assert Times(s.freeConns, j) == if ConnIsFree(s, j) then 1 else 0;
    }
  }

  lemma SameConns(s: State, after: State)
    requires ConnsOk(s) && FreeConnsOk(s) && after.conns == s.conns && after.freeConns == s.freeConns
    requires after.made == s.made && after.dyingConns == s.dyingConns
    requires after.closing == s.closing && after.busy == s.busy && (after.frame == s.frame || after.frame.NoFrame?)
    ensures ConnsOk(after) && FreeConnsOk(after)
  {
    forall j | 0 <= j < |s.conns| ensures ConnOk(after, j) {
      assert ConnOk(s, j);
    }
  }

  lemma DropCallKeeps(s: State, c: nat)
    requires Inv(s) && Enabled(s, DropCall(c))
    ensures Inv(Next(s, DropCall(c)))
  {
    HeldIsCall(s, c);
    DecKeeps(s, s.(creators := s.creators - multiset{c}), c);
    SameConns(s, Next(s, DropCall(c)));
  }

  lemma RingRemoveKeeps(s: State, c: nat)
    requires Inv(s) && Enabled(s, RingRemove(c))
    ensures Inv(Next(s, RingRemove(c)))
  {
    HeldIsCall(s, c);
    DecKeeps(s, s.(rings := s.rings - multiset{c}), c);
    SameConns(s, Next(s, RingRemove(c)));
  }

  lemma RingAddKeeps(s: State, c: nat)
    requires Inv(s) && Enabled(s, RingAdd(c))
    ensures Inv(Next(s, RingAdd(c)))
  {
    IncKeeps(s, Next(s, RingAdd(c)), c);
    SameConns(s, Next(s, RingAdd(c)));
  }

  lemma RecvResumeKeeps(s: State)
    requires Inv(s) && Enabled(s, RecvResume)
    ensures Inv(Next(s, RecvResume))
  {
    HeldIsCall(s, s.frame.call);
    DecKeeps(s, s.(frame := NoFrame), s.frame.call);
    SameConns(s, Next(s, RecvResume));
  }

  lemma ConnStepKeeps(s: State, e: Step, k: nat)
    requires Inv(s) && Enabled(s, e)
    requires e == Connect(k) || e == Watch(k) || e == Unwatch(k) || e == LoopBegin(k) || e == CloseBegin(k)
    ensures Inv(Next(s, e))
  {
    var after := Next(s, e);
    assert ConnOk(s, k);
    forall c: nat ensures Holders(after, c) == Holders(s, c) {
      InQueuesUpdate(s.conns, k, after.conns[k], c);
    }
    SameKeeps(s, after);
    SetConnKeeps(s, after, k, after.conns[k]);
  }

  lemma SendKeeps(s: State, k: nat, c: nat)
    requires Inv(s) && Enabled(s, Send(k, c))
    ensures Inv(Next(s, Send(k, c)))
  {
    var after := Next(s, Send(k, c));
    assert ConnOk(s, k);
    forall x: nat ensures Holders(after, x) == Holders(s, x) + if x == c then 1 else 0 {
      InQueuesUpdate(s.conns, k, after.conns[k], x);
      TimesAppend(s.conns[k].sendq, c, x);
    }
    IncKeeps(s, after, c);
    SetConnKeeps(s, after, k, after.conns[k]);
  }

  /** A call leaves a queue for the frame of do_send or recv_done. */
  lemma StopKeeps(s: State, e: Step)
    requires Inv(s) && Enabled(s, e) && (e.SendStop? || e.RecvStop?)
    ensures Inv(Next(s, e))
  {
    var after := Next(s, e);
    assert ConnOk(s, s.busy);
    forall x: nat ensures Holders(after, x) == Holders(s, x) {
      InQueuesUpdate(s.conns, s.busy, after.conns[s.busy], x);
    }
    SameKeeps(s, after);
    SetConnKeeps(s, after, s.busy, after.conns[s.busy]);
  }

  /** The call that has been sent waits for its reply, or is dropped if the connection is closing. */
  lemma SendResumeKeeps(s: State)
    requires Inv(s) && Enabled(s, SendResume)
    ensures Inv(Next(s, SendResume))
  {
    var after := Next(s, SendResume);
    var k, c := s.busy, s.frame.call;
    assert ConnOk(s, k);
    if s.conns[k].life.Open? {
      forall x: nat ensures Holders(after, x) == Holders(s, x) {
        InQueuesUpdate(s.conns, k, after.conns[k], x);
        TimesAppend(s.conns[k].recvq, c, x);
      }
      SameKeeps(s, after);
      SetConnKeeps(s, after, k, after.conns[k]);
    } else {
      HeldIsCall(s, c);
      DecKeeps(s, s.(frame := NoFrame), c);
      SameConns(s, after);
    }
  }

  lemma CloseDropKeeps(s: State, e: Step, k: nat, c: nat)
    requires Inv(s) && Enabled(s, e) && (e == CloseDropSend(k) || e == CloseDropRecv(k))
    requires c == if e.CloseDropSend? then s.conns[k].sendq[0] else s.conns[k].recvq[0]
    ensures Inv(Next(s, e))
  {
    var after := Next(s, e);
    var t := SetConn(s, k, after.conns[k]);
    QueuedIsHeld(s.conns, k, c);
    HeldIsCall(s, c);
    assert ConnOk(s, k);
    forall x: nat ensures Holders(t, x) + (if x == c then 1 else 0) == Holders(s, x) {
      InQueuesUpdate(s.conns, k, after.conns[k], x);
    }
    DecKeeps(s, t, c);
    SetConnKeeps(s, after, k, after.conns[k]);
  }

  lemma ConnDecKeeps(s: State, e: Step, k: nat)
    requires Inv(s) && Enabled(s, e) && (e == CloseEnd(k) || (e == LoopEnd && k == s.busy))
    ensures Inv(Next(s, e))
  {
    var after := Next(s, e);
    assert ConnOk(s, k) && after.conns == s.conns[k := after.conns[k]];
    forall x: nat ensures Holders(after, x) == Holders(s, x) {
      InQueuesUpdate(s.conns, k, after.conns[k], x);
    }
    SameKeeps(s, after);
    DecConnKeeps(s, if e.LoopEnd? then s else SetConn(s, k, s.conns[k].(socket := false)), after, k);
  }

  /** The handlers of destruction are done, and the memory can be used again. */
  lemma CallDestroyedKeeps(s: State, c: nat)
    requires Inv(s) && Enabled(s, CallDestroyed(c))
    ensures Inv(Next(s, CallDestroyed(c)))
  {
    var after := Next(s, CallDestroyed(c));
    forall x: nat ensures Times(after.freeCalls, x) == if CallIsFree(after, x) then 1 else 0 {
      TimesCons(s.freeCalls, c, x);
    }
    forall x: nat ensures Holders(after, x) == Holders(s, x) {
    }
    SameConns(s, after);
  }

  lemma ConnDestroyedKeeps(s: State, k: nat)
    requires Inv(s) && Enabled(s, ConnDestroyed(k))
    ensures Inv(Next(s, ConnDestroyed(k)))
  {
    var after := Next(s, ConnDestroyed(k));
    forall j: nat ensures Times(after.freeConns, j) == if ConnIsFree(after, j) then 1 else 0 {
      TimesCons(s.freeConns, k, j);
    }
    forall x: nat ensures Holders(after, x) == Holders(s, x) {
    }
    SameKeeps(s, after);
    forall j | 0 <= j < |after.conns| ensures ConnOk(after, j) {
      assert ConnOk(s, j);
    }
  }

  lemma {:induction false} StepKeepsInv(s: State, e: Step)
    requires Inv(s) && Enabled(s, e)
    ensures Inv(Next(s, e))
  {
    match e
    case NewCall => MakeCallKeeps(s);
    case NewConn => MakeConnKeeps(s);
    case DropCall(c) => DropCallKeeps(s, c);
    case RingAdd(c) => RingAddKeeps(s, c);
    case RingRemove(c) => RingRemoveKeeps(s, c);
    case RecvResume => RecvResumeKeeps(s);
    case CallDestroyed(c) => CallDestroyedKeeps(s, c);
    case ConnDestroyed(k) => ConnDestroyedKeeps(s, k);
    case Connect(k) => ConnStepKeeps(s, e, k);
    case Watch(k) => ConnStepKeeps(s, e, k);
    case Unwatch(k) => ConnStepKeeps(s, e, k);
    case LoopBegin(k) => ConnStepKeeps(s, e, k);
    case CloseBegin(k) => ConnStepKeeps(s, e, k);
    case Send(k, c) => SendKeeps(s, k, c);
    case SendStop => StopKeeps(s, e);
    case RecvStop => StopKeeps(s, e);
    case SendResume => SendResumeKeeps(s);
    case CloseDropSend(k) => CloseDropKeeps(s, e, k, s.conns[k].sendq[0]);
    case CloseDropRecv(k) => CloseDropKeeps(s, e, k, s.conns[k].recvq[0]);
    case CloseEnd(k) => ConnDecKeeps(s, e, k);
    case LoopEnd => ConnDecKeeps(s, e, s.busy);
  }

  // ------------------------------------------------------------------ all runs

  ghost predicate Legal(s: State, es: seq<Step>)
    requires Inv(s)
    decreases |es|
  {
    |es| == 0 || (Enabled(s, es[0]) && (StepKeepsInv(s, es[0]); Legal(Next(s, es[0]), es[1..])))
  }

  ghost function Run(s: State, es: seq<Step>): (after: State)
    requires Inv(s) && Legal(s, es)
    ensures Inv(after)
    decreases |es|
  {
    if |es| == 0 then s else (StepKeepsInv(s, es[0]); Run(Next(s, es[0]), es[1..]))
  }

  ghost function Init(): (s: State)
    ensures Inv(s)
  {
    State([], [], {}, [], [], {}, 0, multiset{}, multiset{}, {}, -1, NoFrame)
  }

  /** In every run a call's count is the number of its holders: those who made it, session rings,
      places in send and receive queues, and the handler frame of do_send or recv_done. So it is
      destroyed exactly when the last holder leaves, and is on the free list, once, exactly when
      it has no holder and the handlers of its destruction are done. */
  lemma CountsAreHolders(es: seq<Step>, c: nat)
    requires Legal(Init(), es)
    ensures var s := Run(Init(), es);
      && Holders(s, c) == (if c < |s.calls| then s.calls[c] else 0)
      && Times(s.freeCalls, c) == (if c < |s.calls| && Holders(s, c) == 0 && c !in s.dyingCalls then 1 else 0)
      && (c in s.dyingCalls ==> Holders(s, c) == 0)
  {
  }

  /** A connection is freed exactly when core_close is done with it and core_loop does not hold it
      any more, and the assertions of conn_deinit hold then. */
  lemma ConnsAreFreedInTime(es: seq<Step>, k: nat)
    requires Legal(Init(), es) && k < |Run(Init(), es).conns|
    ensures var s := Run(Init(), es);
      && s.conns[k].refs == ConnHolders(s, k)
      && (s.conns[k].life.Freed? <==> ConnHolders(s, k) == 0)
      && (ConnHolders(s, k) == 0 ==> DeinitOk(s.conns[k].(life := Closing)))
  {
    assert ConnOk(Run(Init(), es), k);
  }

  /** The connection that core_loop works on is not freed before core_loop gives up its hold, so
      what do_send looks at after the handlers is still there. */
  lemma BusyIsThere(es: seq<Step>)
    requires Legal(Init(), es) && Run(Init(), es).busy >= 0
    ensures var s := Run(Init(), es); !s.conns[s.busy].life.Freed?
  {
    assert ConnOk(Run(Init(), es), Run(Init(), es).busy);
  }
}
