/** What a session does with its calls: every connection slot has a queue of pending calls, sent
    on the slot's connection in order; when a connection fails they are sent again on a new one. */
module SessionModel {

  /** Size of the ring of pending calls in a slot. */
  const MAX_PIPED: nat := 32

  datatype Call = Call(id: nat)

  datatype Params = Params(maxConns: nat, maxPiped: nat, httpVersion: nat, retryOnFailure: bool, failureStatus: int)

  /** session_init refuses anything above 4 connections and 32 calls. */
  predicate Allowed(p: Params) {
    1 <= p.maxConns <= 4 && 1 <= p.maxPiped <= MAX_PIPED
  }

  /** A slot's connection, with the calls to be sent and those that wait for their reply. */
  datatype Link = Down | Up(connected: bool, successful: bool, sendq: seq<Call>, recvq: seq<Call>)

  datatype Slot = Slot(pending: seq<Call>, sent: nat, link: Link)

  datatype Status = Running | Failed | Exited

  /** The state, with a log of the calls ever issued and of those completed. */
  datatype Session = Session(slots: seq<Slot>, status: Status, issued: multiset<Call>, completed: multiset<Call>)

  /** What connect() makes of an attempt. */
  datatype Attempt = InProgress | Instant | Refused

  datatype Event =
    | Issue(call: Call, attempt: Attempt)
    | Connected(slot: nat)
    | ConnFailed(slot: nat, attempt: Attempt)
    | TimedOut(slot: nat)
    | SendDone(slot: nat)
    | ReplyDone(slot: nat, code: int, attempt: Attempt)

  // ------------------------------------------------------------------ steps

  /** send_calls on a connection that is ready. */
  function SendAll(s: Slot): Slot
    requires s.link.Up? && s.sent <= |s.pending|
  {
    s.(sent := |s.pending|, link := s.link.(sendq := s.link.sendq + s.pending[s.sent..]))
  }

  function NowConnected(s: Slot): Slot
    requires s.link.Up? && s.sent <= |s.pending|
  {
    SendAll(s.(link := s.link.(connected := true)))
  }

  function CreateConn(s: Slot, a: Attempt): Slot {
    var anew := Slot(s.pending, 0, Up(false, false, [], []));
    if a.Instant? then NowConnected(anew) else anew
  }

  function SendCalls(s: Slot, a: Attempt): Slot
    requires s.sent <= |s.pending|
  {
    if s.link.Down? then CreateConn(s, a)
    else if !s.link.connected then s
    else SendAll(s)
  }

  function StatusAfter(tried: bool, a: Attempt): Status {
    if tried && a.Refused? then Failed else Running
  }

  /** The first slot, from k on, that has room for a call. */
  function FirstWithRoom(slots: seq<Slot>, max: nat, k: nat): (i: nat)
    requires k <= |slots|
    ensures k <= i <= |slots| && (i < |slots| ==> |slots[i].pending| < max)
    ensures forall j :: k <= j < i ==> |slots[j].pending| >= max
    decreases |slots| - k
  {
    if k == |slots| || |slots[k].pending| < max then k else FirstWithRoom(slots, max, k + 1)
  }

  /** The counters of the slots agree with each other. */
  predicate Sane(s: Session) {
    forall i :: 0 <= i < |s.slots| ==> s.slots[i].sent <= |s.slots[i].pending|
  }

  /** session_issue_call; it exits when no slot has room. */
  function IssueCall(p: Params, s: Session, call: Call, a: Attempt): Session
    requires Sane(s)
  {
    var i := FirstWithRoom(s.slots, p.maxPiped, 0);
    if i == |s.slots| then s.(status := Exited)
    else
      var slot := s.slots[i].(pending := s.slots[i].pending + [call]);
      s.(slots := s.slots[i := SendCalls(slot, a)],
         status := if s.status.Running? then StatusAfter(slot.link.Down?, a) else s.status)
  }

  function Pop(s: Slot): Slot
    requires s.link.Up? && s.link.recvq != [] && s.pending != [] && s.sent > 0
  {
    Slot(s.pending[1..], s.sent - 1, s.link.(recvq := s.link.recvq[1..], successful := true))
  }

  predicate Retried(p: Params, code: int) {
    p.failureStatus != 0 && code == p.failureStatus && p.retryOnFailure
  }

  /** What becomes of a call that has left its slot: it is issued again or completed, and may
      fail the session. */
  function Dispose(p: Params, s: Session, call: Call, code: int, a: Attempt): Session
    requires Sane(s)
  {
    if Retried(p, code) then IssueCall(p, s, call, a)
    else s.(completed := s.completed + multiset{call},
            status := if p.failureStatus != 0 && code == p.failureStatus then Failed else s.status)
  }

  /** Before HTTP/1.1 the connection is closed after a reply. */
  function CloseOld(p: Params, s: Session, i: nat): Session
    requires i < |s.slots|
  {
    if p.httpVersion < 0x10001 then s.(slots := s.slots[i := s.slots[i].(link := Down)]) else s
  }

  /** call_done. */
  function CallDone(p: Params, s: Session, i: nat, code: int, a: Attempt): Session
    requires Sane(s) && i < |s.slots| && s.slots[i].link.Up? && s.slots[i].link.recvq != []
    requires s.slots[i].pending != [] && s.slots[i].sent > 0
  {
    var popped := s.(slots := s.slots[i := Pop(s.slots[i])]);
    CloseOld(p, Dispose(p, popped, s.slots[i].link.recvq[0], code, a), i)
  }

  function AllPending(slots: seq<Slot>): multiset<Call> {
    if |slots| == 0 then multiset{} else multiset(slots[0].pending) + AllPending(slots[1..])
  }

  /** When an event can happen. A call that is issued must not be pending already: the queues
      are linked through the calls themselves. */
  predicate Enabled(s: Session, e: Event) {
    && s.status.Running?
    && match e
       case Issue(call, _) => call !in AllPending(s.slots)
       case Connected(i) => i < |s.slots| && s.slots[i].link.Up? && !s.slots[i].link.connected
       case ConnFailed(i, _) => i < |s.slots| && s.slots[i].link.Up?
       case TimedOut(i) => i < |s.slots| && s.slots[i].link.Up?
       case SendDone(i) => i < |s.slots| && s.slots[i].link.Up? && s.slots[i].link.sendq != []
       case ReplyDone(i, _, _) => i < |s.slots| && s.slots[i].link.Up? && s.slots[i].link.recvq != []
  }

  function Step(p: Params, s: Session, e: Event): Session
    requires Inv(p, s) && Enabled(s, e)
  {
    match e
    case Issue(call, a) => IssueCall(p, s.(issued := s.issued + multiset{call}), call, a)
    case Connected(i) => s.(slots := s.slots[i := NowConnected(s.slots[i])])
    case ConnFailed(i, a) =>
      if s.slots[i].link.successful || p.retryOnFailure
      then s.(slots := s.slots[i := CreateConn(s.slots[i], a)], status := StatusAfter(true, a))
      else s.(status := Failed)
    case TimedOut(i) => s.(status := Failed)
    case SendDone(i) =>
      var l := s.slots[i].link;
      s.(slots := s.slots[i := s.slots[i].(link := l.(sendq := l.sendq[1..], recvq := l.recvq + [l.sendq[0]]))])
    case ReplyDone(i, code, a) => CallDone(p, s, i, code, a)
  }

  // ------------------------------------------------------------------ what is kept

  /** On a connection that is ready, every pending call has been handed over, and the two queues
      hold the pending calls in their order. */
  predicate SlotOk(p: Params, s: Slot) {
    && |s.pending| <= p.maxPiped && s.sent <= |s.pending|
    && match s.link
       case Down => true
       case Up(connected, _, sendq, recvq) =>
         if connected then s.sent == |s.pending| && recvq + sendq == s.pending
         else s.sent == 0 && sendq == [] && recvq == []
  }

  predicate SlotsOk(p: Params, slots: seq<Slot>) {
    forall i :: 0 <= i < |slots| ==> SlotOk(p, slots[i])
  }

  /** No call is lost or duplicated. */
  predicate Conserved(s: Session) {
    && s.issued == s.completed + AllPending(s.slots)
    && Single(AllPending(s.slots))
  }

  predicate Single(m: multiset<Call>) {
    forall c :: c in m ==> m[c] == 1
  }

  lemma OneLess(m: multiset<Call>, rest: multiset<Call>, call: Call)
    requires m == rest + multiset{call} && Single(m)
    ensures Single(rest) && call !in rest
  {
    forall c | c in rest ensures rest[c] == 1 && c != call {
      assert c in m && m[c] == rest[c] + multiset{call}[c];
    }
  }

  predicate Inv(p: Params, s: Session) {
    && Allowed(p) && |s.slots| == p.maxConns && SlotsOk(p, s.slots)
    && (s.status.Running? ==> Conserved(s))
  }

  function Init(p: Params): (s: Session)
    requires Allowed(p)
    ensures Inv(p, s)
  {
    var slots := seq(p.maxConns, i => Slot([], 0, Down));
    NothingPending(slots);
    Session(slots, Running, multiset{}, multiset{})
  }

  lemma {:induction false} NothingPending(slots: seq<Slot>)
    requires forall i :: 0 <= i < |slots| ==> slots[i].pending == []
    ensures AllPending(slots) == multiset{}
  {
    if |slots| > 0 {
      NothingPending(slots[1..]);
    }
  }

  lemma Regroup(a: multiset<Call>, b: multiset<Call>, c: multiset<Call>)
    ensures (a + b) + c == a + (b + c)
  {
  }

  lemma {:induction false} PendingUpdate(slots: seq<Slot>, i: nat, s: Slot)
    requires i < |slots|
    ensures AllPending(slots[i := s]) + multiset(slots[i].pending) == AllPending(slots) + multiset(s.pending)
  {
    if i > 0 {
      PendingUpdate(slots[1..], i - 1, s);
      assert slots[i := s][1..] == slots[1..][i - 1 := s] && slots[i := s][0] == slots[0];
      Regroup(multiset(slots[0].pending), AllPending(slots[1..][i - 1 := s]), multiset(slots[i].pending));
      Regroup(multiset(slots[0].pending), AllPending(slots[1..]), multiset(s.pending));
    } else {
      assert slots[0 := s][1..] == slots[1..];
    }
  }

  lemma SendCallsOk(p: Params, s: Slot, a: Attempt)
    requires s.sent <= |s.pending| <= p.maxPiped
    requires s.link.Up? ==> if s.link.connected then s.link.recvq + s.link.sendq == s.pending[..s.sent]
                            else s.sent == 0 && s.link.sendq == [] && s.link.recvq == []
    ensures SlotOk(p, SendCalls(s, a)) && SendCalls(s, a).pending == s.pending
  {
    assert s.pending[..0] == [] && s.pending[0..] == s.pending;
    if s.link.Up? && s.link.connected {
      assert s.link.recvq + (s.link.sendq + s.pending[s.sent..]) == (s.link.recvq + s.link.sendq) + s.pending[s.sent..];
    }
  }

  lemma Cancel(a: multiset<Call>, b: multiset<Call>, c: multiset<Call>)
    requires a + c == b + c
    ensures a == b
  {
    forall x ensures a[x] == b[x] {
      assert (a + c)[x] == (b + c)[x];
    }
  }

  /** Issuing a call adds it to the end of one slot, or exits when all slots are full. */
  lemma IssueKeeps(p: Params, s: Session, call: Call, a: Attempt)
    requires Allowed(p) && |s.slots| == p.maxConns && SlotsOk(p, s.slots)
    ensures SlotsOk(p, IssueCall(p, s, call, a).slots) && |IssueCall(p, s, call, a).slots| == p.maxConns
    ensures IssueCall(p, s, call, a).status.Exited?
            || AllPending(IssueCall(p, s, call, a).slots) == AllPending(s.slots) + multiset{call}
  {
    var i := FirstWithRoom(s.slots, p.maxPiped, 0);
    if i < |s.slots| {
      var slot := s.slots[i].(pending := s.slots[i].pending + [call]);
      assert slot.pending[..s.slots[i].sent] == s.slots[i].pending[..s.slots[i].sent];
      SendCallsOk(p, slot, a);
      PendingUpdate(s.slots, i, SendCalls(slot, a));
      assert multiset(slot.pending) == multiset(s.slots[i].pending) + multiset{call};
      Cancel(AllPending(IssueCall(p, s, call, a).slots), AllPending(s.slots) + multiset{call},
             multiset(s.slots[i].pending));
    }
  }

  /** call_done's assertion: the call whose reply is complete is the first one of its slot. */
  lemma ReplyIsForFirstCall(p: Params, s: Slot)
    requires SlotOk(p, s) && s.link.Up? && s.link.recvq != []
    ensures s.link.connected && s.pending != [] && s.pending[0] == s.link.recvq[0] && s.sent > 0
    ensures SlotOk(p, Pop(s)) && multiset(s.pending) == multiset(Pop(s).pending) + multiset{s.link.recvq[0]}
  {
    assert s.pending == [s.pending[0]] + s.pending[1..];
    assert (s.link.recvq + s.link.sendq)[1..] == s.link.recvq[1..] + s.link.sendq;
  }

  lemma {:induction false} RoomAfterPop(slots: seq<Slot>, max: nat, i: nat, k: nat)
    requires k <= i < |slots| && |slots[i].pending| < max
    ensures FirstWithRoom(slots, max, k) < |slots|
  {
  }

  lemma IssuedIsConserved(p: Params, s: Session, call: Call, a: Attempt)
    requires Inv(p, s) && Enabled(s, Issue(call, a))
    ensures Inv(p, Step(p, s, Issue(call, a)))
  {
    IssueKeeps(p, s.(issued := s.issued + multiset{call}), call, a);
  }

  lemma ReplaceSlot(p: Params, slots: seq<Slot>, i: nat, s: Slot)
    requires SlotsOk(p, slots) && i < |slots| && SlotOk(p, s) && s.pending == slots[i].pending
    ensures SlotsOk(p, slots[i := s]) && AllPending(slots[i := s]) == AllPending(slots)
  {
    PendingUpdate(slots, i, s);
    Cancel(AllPending(slots[i := s]), AllPending(slots), multiset(s.pending));
  }

  lemma PopSlot(p: Params, slots: seq<Slot>, i: nat)
    requires SlotsOk(p, slots) && i < |slots| && slots[i].link.Up? && slots[i].link.recvq != []
    ensures SlotOk(p, slots[i]) && slots[i].pending != [] && slots[i].sent > 0
    ensures SlotsOk(p, slots[i := Pop(slots[i])])
    ensures AllPending(slots) == AllPending(slots[i := Pop(slots[i])]) + multiset{slots[i].link.recvq[0]}
  {
    var s, call := slots[i], slots[i].link.recvq[0];
    ReplyIsForFirstCall(p, s);
    var rest := multiset(Pop(s).pending);
    PendingUpdate(slots, i, Pop(s));
    var after := AllPending(slots[i := Pop(s)]);
    Regroup(after, rest, multiset{call});
    Regroup(after, multiset{call}, rest);
    assert rest + multiset{call} == multiset{call} + rest;
    Cancel(AllPending(slots), after + multiset{call}, rest);
  }

  /** A retried call goes back to a slot: there is room, as one has just become free. */
  lemma DisposeConserves(p: Params, s: Session, call: Call, i: nat, code: int, a: Attempt)
    requires Allowed(p) && |s.slots| == p.maxConns && SlotsOk(p, s.slots) && s.status.Running?
    requires i < |s.slots| && |s.slots[i].pending| < p.maxPiped && call !in AllPending(s.slots)
    requires s.issued == s.completed + (AllPending(s.slots) + multiset{call})
    requires Single(AllPending(s.slots))
    ensures Inv(p, Dispose(p, s, call, code, a)) && !Dispose(p, s, call, code, a).status.Exited?
  {
    IssueKeeps(p, s, call, a);
    RoomAfterPop(s.slots, p.maxPiped, i, 0);
    if !Retried(p, code) {
      assert s.completed + multiset{call} + AllPending(s.slots) == s.issued;
    }
  }

  lemma CloseOldKeeps(p: Params, s: Session, i: nat)
    requires Inv(p, s) && i < |s.slots|
    ensures Inv(p, CloseOld(p, s, i)) && AllPending(CloseOld(p, s, i).slots) == AllPending(s.slots)
  {
    ReplaceSlot(p, s.slots, i, s.slots[i].(link := Down));
  }

  lemma ReplyIsConserved(p: Params, s: Session, i: nat, code: int, a: Attempt)
    requires Inv(p, s) && Enabled(s, ReplyDone(i, code, a))
    ensures Inv(p, Step(p, s, ReplyDone(i, code, a))) && !Step(p, s, ReplyDone(i, code, a)).status.Exited?
  {
    PopSlot(p, s.slots, i);
    var call := s.slots[i].link.recvq[0];
    var popped := s.(slots := s.slots[i := Pop(s.slots[i])]);
    OneLess(AllPending(s.slots), AllPending(popped.slots), call);
    DisposeConserves(p, popped, call, i, code, a);
    CloseOldKeeps(p, Dispose(p, popped, call, code, a), i);
  }

  lemma {:induction false} StepKeepsInv(p: Params, s: Session, e: Event)
    requires Inv(p, s) && Enabled(s, e)
    ensures Inv(p, Step(p, s, e))
  {
    match e
    case Issue(call, a) => IssuedIsConserved(p, s, call, a);
    case ReplyDone(i, code, a) => ReplyIsConserved(p, s, i, code, a);
    case TimedOut(i) =>
    case Connected(i) =>
      NowConnectedOk(p, s.slots[i]);
      ReplaceSlot(p, s.slots, i, NowConnected(s.slots[i]));
    case ConnFailed(i, a) =>
      SendCallsOk(p, s.slots[i].(link := Down), a);
      ReplaceSlot(p, s.slots, i, CreateConn(s.slots[i], a));
    case SendDone(i) =>
      var l := s.slots[i].link;
      assert (l.recvq + [l.sendq[0]]) + l.sendq[1..] == l.recvq + l.sendq;
      ReplaceSlot(p, s.slots, i, s.slots[i].(link := l.(sendq := l.sendq[1..], recvq := l.recvq + [l.sendq[0]])));
  }

  lemma NowConnectedOk(p: Params, s: Slot)
    requires SlotOk(p, s) && s.link.Up? && !s.link.connected
    ensures SlotOk(p, NowConnected(s)) && NowConnected(s).pending == s.pending
    ensures NowConnected(s).link.recvq == [] && NowConnected(s).link.sendq == s.pending
  {
    assert s.pending[0..] == s.pending;
  }

  // ------------------------------------------------------------------ runs

  predicate Legal(p: Params, s: Session, es: seq<Event>)
    requires Inv(p, s)
    decreases |es|
  {
    |es| == 0 || (Enabled(s, es[0]) && (StepKeepsInv(p, s, es[0]); Legal(p, Step(p, s, es[0]), es[1..])))
  }

  function Run(p: Params, s: Session, es: seq<Event>): (after: Session)
    requires Inv(p, s) && Legal(p, s, es)
    ensures Inv(p, after)
    decreases |es|
  {
    if |es| == 0 then s else (StepKeepsInv(p, s, es[0]); Run(p, Step(p, s, es[0]), es[1..]))
  }

  function IssuedIn(es: seq<Event>): multiset<Call> {
    if |es| == 0 then multiset{}
    else (if es[0].Issue? then multiset{es[0].call} else multiset{}) + IssuedIn(es[1..])
  }

  function Taken(e: Event, i: nat): nat {
    if e.ReplyDone? && e.slot == i then 1 else 0
  }

  function Replies(es: seq<Event>, i: nat): nat {
    if |es| == 0 then 0 else Taken(es[0], i) + Replies(es[1..], i)
  }

  lemma StepLogs(p: Params, s: Session, e: Event)
    requires Inv(p, s) && Enabled(s, e)
    ensures Step(p, s, e).issued == if e.Issue? then s.issued + multiset{e.call} else s.issued
  {
  }

  lemma {:induction false} RunLogs(p: Params, s: Session, es: seq<Event>)
    requires Inv(p, s) && Legal(p, s, es)
    ensures Run(p, s, es).issued == s.issued + IssuedIn(es)
    decreases |es|
  {
    if |es| > 0 {
      StepKeepsInv(p, s, es[0]);
      StepLogs(p, s, es[0]);
      RunLogs(p, Step(p, s, es[0]), es[1..]);
      Regroup(s.issued, if es[0].Issue? then multiset{es[0].call} else multiset{}, IssuedIn(es[1..]));
    }
  }

  /** While a session runs, every call ever issued is pending in exactly one slot, or has been
      completed, exactly as often as it was issued. */
  lemma {:induction false} CallsAreConserved(p: Params, es: seq<Event>, c: Call)
    requires Allowed(p) && Legal(p, Init(p), es) && Run(p, Init(p), es).status.Running?
    ensures var s := Run(p, Init(p), es);
      IssuedIn(es)[c] == s.completed[c] + AllPending(s.slots)[c] && AllPending(s.slots)[c] <= 1
  {
    RunLogs(p, Init(p), es);
    var s := Run(p, Init(p), es);
    assert s.issued == IssuedIn(es);
    assert (s.completed + AllPending(s.slots))[c] == s.completed[c] + AllPending(s.slots)[c];
  }

  // ------------------------------------------------------------------ order

  /** A slot's pending calls are a queue: replies take calls off its front, one each, and
      nothing else takes any, not even a connection that fails. */
  lemma StepIsFifo(p: Params, s: Session, e: Event, i: nat)
    requires Inv(p, s) && Enabled(s, e) && i < |s.slots|
    ensures Taken(e, i) <= |s.slots[i].pending| && |Step(p, s, e).slots| == |s.slots|
    ensures s.slots[i].pending[Taken(e, i)..] <= Step(p, s, e).slots[i].pending
  {
    match e
    case Issue(call, a) => IssueOnlyAppends(p, s.(issued := s.issued + multiset{call}), call, a, i);
    case ReplyDone(j, code, a) =>
      PopSlot(p, s.slots, j);
      ReplyIsFifo(p, s, j, code, a, i);
    case TimedOut(_) =>
    case Connected(_) =>
    case ConnFailed(_, _) =>
    case SendDone(_) =>
  }

  lemma IssueOnlyAppends(p: Params, s: Session, call: Call, a: Attempt, i: nat)
    requires Sane(s) && i < |s.slots|
    ensures |IssueCall(p, s, call, a).slots| == |s.slots|
    ensures s.slots[i].pending <= IssueCall(p, s, call, a).slots[i].pending
  {
  }

  lemma DisposeOnlyAppends(p: Params, s: Session, call: Call, code: int, a: Attempt, j: nat, i: nat)
    requires Sane(s) && i < |s.slots| && j < |s.slots|
    ensures |Dispose(p, s, call, code, a).slots| == |s.slots|
    ensures s.slots[i].pending <= CloseOld(p, Dispose(p, s, call, code, a), j).slots[i].pending
  {
    IssueOnlyAppends(p, s, call, a, i);
  }

  lemma ReplyIsFifo(p: Params, s: Session, j: nat, code: int, a: Attempt, i: nat)
    requires Sane(s) && i < |s.slots| && j < |s.slots| && s.slots[j].link.Up? && s.slots[j].link.recvq != []
    requires s.slots[j].pending != [] && s.slots[j].sent > 0
    ensures |CallDone(p, s, j, code, a).slots| == |s.slots| && Taken(ReplyDone(j, code, a), i) <= |s.slots[i].pending|
    ensures s.slots[i].pending[Taken(ReplyDone(j, code, a), i)..] <= CallDone(p, s, j, code, a).slots[i].pending
  {
    DisposeOnlyAppends(p, s.(slots := s.slots[j := Pop(s.slots[j])]), s.slots[j].link.recvq[0], code, a, j, i);
  }

  lemma PrefixesCompose(a: seq<Call>, k: nat, b: seq<Call>, n: nat, c: seq<Call>)
    requires k + n <= |a| && a[k..] <= b && n <= |b| && b[n..] <= c
    ensures a[k + n..] <= c
  {
    assert a[k + n..] == a[k..][n..] <= b[n..];
  }

  lemma {:induction false} PendingIsFifo(p: Params, s: Session, es: seq<Event>, i: nat)
    requires Inv(p, s) && Legal(p, s, es) && i < |s.slots| && Replies(es, i) <= |s.slots[i].pending|
    ensures |Run(p, s, es).slots| == |s.slots|
    ensures s.slots[i].pending[Replies(es, i)..] <= Run(p, s, es).slots[i].pending
    decreases |es|
  {
    if |es| > 0 {
      StepKeepsInv(p, s, es[0]);
      StepIsFifo(p, s, es[0], i);
      var s1 := Step(p, s, es[0]);
      PendingIsFifo(p, s1, es[1..], i);
      PrefixesCompose(s.slots[i].pending, Taken(es[0], i), s1.slots[i].pending, Replies(es[1..], i),
                      Run(p, s, es).slots[i].pending);
    }
  }

  /** What a slot's connection has been handed: all calls that are pending, in their order, and none
      of them has been sent. */
  predicate HandedAll(t: Slot) {
    t.link.Up? && t.link.recvq == [] && t.link.sendq == t.pending
  }

  /** After a connection has failed, the next one sends the calls that were pending, all of them
      and in their order: at once, if it is ready at once, or else when it is, whatever happens
      until then. */
  lemma {:induction false} ReconnectSendsAll(p: Params, s: Session, i: nat, a: Attempt, es: seq<Event>)
    requires Inv(p, s) && Enabled(s, ConnFailed(i, a)) && (s.slots[i].link.successful || p.retryOnFailure)
    requires Legal(p, s, [ConnFailed(i, a)] + Until(i, a, es)) && Replies(es, i) == 0
    ensures var after := Run(p, s, [ConnFailed(i, a)] + Until(i, a, es));
      i < |after.slots| && HandedAll(after.slots[i]) && s.slots[i].pending <= after.slots[i].pending
  {
    var e := ConnFailed(i, a);
    StepKeepsInv(p, s, e);
    var s1 := Step(p, s, e);
    assert ([e] + Until(i, a, es))[1..] == Until(i, a, es);
    if a.Instant? {
      assert s.slots[i].pending[0..] == s.slots[i].pending;
    } else {
      WhenConnected(p, s1, i, es);
    }
  }

  /** The events until a new connection is ready. */
  function Until(i: nat, a: Attempt, es: seq<Event>): seq<Event> {
    if a.Instant? then [] else es + [Connected(i)]
  }

  lemma WhenConnected(p: Params, s: Session, i: nat, es: seq<Event>)
    requires Inv(p, s) && i < |s.slots| && Legal(p, s, es + [Connected(i)]) && Replies(es, i) == 0
    ensures var after := Run(p, s, es + [Connected(i)]);
      i < |after.slots| && HandedAll(after.slots[i]) && s.slots[i].pending <= after.slots[i].pending
  {
    RunSplits(p, s, es, [Connected(i)]);
    PendingIsFifo(p, s, es, i);
    var s2 := Run(p, s, es);
    assert [Connected(i)][1..] == [];
    NowConnectedOk(p, s2.slots[i]);
    assert s.slots[i].pending[0..] == s.slots[i].pending;
  }

  lemma {:induction false} RunSplits(p: Params, s: Session, a: seq<Event>, b: seq<Event>)
    requires Inv(p, s) && Legal(p, s, a + b)
    ensures Legal(p, s, a) && Legal(p, Run(p, s, a), b) && Run(p, s, a + b) == Run(p, Run(p, s, a), b)
    decreases |a|
  {
    if |a| == 0 {
      assert a + b == b;
    } else {
      assert (a + b)[1..] == a[1..] + b && (a + b)[0] == a[0];
      StepKeepsInv(p, s, a[0]);
      RunSplits(p, Step(p, s, a[0]), a[1..], b);
    }
  }

  // ------------------------------------------------------------------ calls left behind

  /** Every pending call has a connection that carries it or will carry it. */
  predicate Served(s: Session) {
    forall i :: 0 <= i < |s.slots| && s.slots[i].link.Down? ==> s.slots[i].pending == []
  }

  /** A call can be left behind when connections close after each reply, and a slot can still
      hold a call then: one piped behind the first, or one that was issued again. */
  predicate MayStrand(p: Params) {
    p.httpVersion < 0x10001 && (p.maxPiped > 1 || (p.failureStatus != 0 && p.retryOnFailure))
  }

  lemma StepKeepsServed(p: Params, s: Session, e: Event)
    requires Inv(p, s) && Enabled(s, e) && Served(s) && !MayStrand(p)
    ensures Served(Step(p, s, e))
  {
    match e
    case Issue(call, a) => IssueKeepsServed(p, s.(issued := s.issued + multiset{call}), call, a);
    case ReplyDone(i, code, a) =>
      PopSlot(p, s.slots, i);
      ReplyKeepsServed(p, s.(slots := s.slots[i := Pop(s.slots[i])]), s.slots[i].link.recvq[0], i, code, a);
    case TimedOut(_) =>
    case Connected(_) =>
    case ConnFailed(_, _) =>
    case SendDone(_) =>
  }

  lemma ReplyKeepsServed(p: Params, popped: Session, call: Call, i: nat, code: int, a: Attempt)
    requires Sane(popped) && Served(popped) && i < |popped.slots| && |popped.slots[i].pending| < p.maxPiped
              && !MayStrand(p)
    ensures i < |Dispose(p, popped, call, code, a).slots| && Served(CloseOld(p, Dispose(p, popped, call, code, a), i))
  {
    IssueKeepsServed(p, popped, call, a);
    assert Served(Dispose(p, popped, call, code, a));
  }

  lemma IssueKeepsServed(p: Params, s: Session, call: Call, a: Attempt)
    requires Sane(s) && Served(s)
    ensures Served(IssueCall(p, s, call, a))
  {
  }

  lemma {:induction false} NoneStranded(p: Params, s: Session, es: seq<Event>)
    requires Inv(p, s) && Legal(p, s, es) && Served(s) && !MayStrand(p)
    ensures Served(Run(p, s, es))
    decreases |es|
  {
    if |es| > 0 {
      StepKeepsServed(p, s, es[0]);
      StepKeepsInv(p, s, es[0]);
      NoneStranded(p, Step(p, s, es[0]), es[1..]);
    }
  }

  /** Two piped calls, or one that is retried, and the reply to the first. */
  function StrandingRun(p: Params): seq<Event> {
    if p.maxPiped > 1
    then [Issue(Call(0), Instant)] + [Issue(Call(1), Instant)] + [SendDone(0)]
         + [ReplyDone(0, p.failureStatus + 1, Instant)]
    else [Issue(Call(0), Instant)] + [SendDone(0)] + [ReplyDone(0, p.failureStatus, Instant)]
  }

  /** No run from the start leaves a call without a connection, unless MayStrand holds: then
      there is one that does. */
  lemma {:induction false} StrandsExactlyWhen(p: Params)
    requires Allowed(p)
    ensures MayStrand(p) ==> Legal(p, Init(p), StrandingRun(p)) && Run(p, Init(p), StrandingRun(p)).status.Running?
                             && !Served(Run(p, Init(p), StrandingRun(p)))
    ensures !MayStrand(p) ==> forall es :: Legal(p, Init(p), es) ==> Served(Run(p, Init(p), es))
  {
    if MayStrand(p) {
      var after;
      if p.maxPiped > 1 { after := PipedIsStranded(p); } else { after := RetriedIsStranded(p); }
    } else {
      forall es | Legal(p, Init(p), es) ensures Served(Run(p, Init(p), es)) {
        NoneStranded(p, Init(p), es);
      }
    }
  }

  predicate Reaches(p: Params, s: Session, es: seq<Event>, after: Session) {
    Inv(p, s) && Legal(p, s, es) && Run(p, s, es) == after && after.status.Running?
  }

  lemma {:induction false} ReachesOn(
      p: Params, s: Session, a: seq<Event>, between: Session, b: seq<Event>, after: Session)
    requires Reaches(p, s, a, between) && Reaches(p, between, b, after)
    ensures Reaches(p, s, a + b, after)
    decreases |a|
  {
    if |a| == 0 {
      assert a + b == b;
    } else {
      assert (a + b)[1..] == a[1..] + b && (a + b)[0] == a[0];
      StepKeepsInv(p, s, a[0]);
      ReachesOn(p, Step(p, s, a[0]), a[1..], between, b, after);
    }
  }

  lemma ReachesOne(p: Params, s: Session, e: Event)
    requires Inv(p, s) && Enabled(s, e) && Step(p, s, e).status.Running?
    ensures Reaches(p, s, [e], Step(p, s, e))
  {
    StepKeepsInv(p, s, e);
    assert [e][1..] == [];
  }

  /** A first slot that is connected, whose calls are all still to be sent. */
  predicate Loaded(p: Params, s: Session, calls: seq<Call>) {
    && Inv(p, s) && s.status.Running? && s.issued == multiset(calls)
    && s.slots[0].pending == calls && s.slots[0].sent == |calls|
    && s.slots[0].link == if calls == [] then Down else Up(true, false, calls, [])
  }

  lemma Load(p: Params, s: Session, calls: seq<Call>, call: Call) returns (after: Session)
    requires Loaded(p, s, calls) && |calls| < p.maxPiped && call !in calls
    ensures Loaded(p, after, calls + [call]) && Reaches(p, s, [Issue(call, Instant)], after)
  {
    assert call in AllPending(s.slots) ==> call in s.completed + AllPending(s.slots);
    after := Step(p, s, Issue(call, Instant));
    IssuedIsConserved(p, s, call, Instant);
    ReachesOne(p, s, Issue(call, Instant));
    assert (calls + [call])[0..] == calls + [call] && (calls + [call])[|calls|..] == [call];
  }

  lemma SendFirst(p: Params, s: Session, calls: seq<Call>) returns (after: Session)
    requires Loaded(p, s, calls) && calls != []
    ensures Reaches(p, s, [SendDone(0)], after) && Inv(p, after) && |after.slots| > 0
    ensures after.slots[0] == Slot(calls, |calls|, Up(true, false, calls[1..], [calls[0]]))
  {
    StepKeepsInv(p, s, SendDone(0));
    after := Step(p, s, SendDone(0));
    assert [] + [calls[0]] == [calls[0]];
    ReachesOne(p, s, SendDone(0));
  }

  lemma PlainReply(p: Params, s: Session, code: int) returns (after: Session)
    requires Inv(p, s) && Enabled(s, ReplyDone(0, code, Instant)) && code != p.failureStatus && p.httpVersion < 0x10001
    ensures Reaches(p, s, [ReplyDone(0, code, Instant)], after)
    ensures s.slots[0].pending != [] && s.slots[0].sent > 0
    ensures |after.slots| > 0 && after.slots[0] == Slot(s.slots[0].pending[1..], s.slots[0].sent - 1, Down)
  {
    PopSlot(p, s.slots, 0);
    after := Step(p, s, ReplyDone(0, code, Instant));
    ReachesOne(p, s, ReplyDone(0, code, Instant));
  }

  lemma RetriedReply(p: Params, s: Session, code: int) returns (after: Session)
    requires Inv(p, s) && Enabled(s, ReplyDone(0, code, Instant)) && Retried(p, code) && p.httpVersion < 0x10001
    requires p.maxPiped == 1
    ensures Reaches(p, s, [ReplyDone(0, code, Instant)], after)
    ensures |after.slots| > 0 && after.slots[0] == Slot(s.slots[0].pending, 1, Down)
  {
    PopSlot(p, s.slots, 0);
    assert s.slots[0].pending == [] + [s.slots[0].link.recvq[0]];
    after := Step(p, s, ReplyDone(0, code, Instant));
    ReachesOne(p, s, ReplyDone(0, code, Instant));
  }

  lemma LoadTwo(p: Params) returns (s: Session)
    requires Allowed(p) && p.maxPiped > 1
    ensures Loaded(p, s, [Call(0), Call(1)])
    ensures Reaches(p, Init(p), [Issue(Call(0), Instant)] + [Issue(Call(1), Instant)], s)
  {
    var s1 := Load(p, Init(p), [], Call(0));
    assert [] + [Call(0)] == [Call(0)];
    s := Load(p, s1, [Call(0)], Call(1));
    assert [Call(0)] + [Call(1)] == [Call(0), Call(1)];
    ReachesOn(p, Init(p), [Issue(Call(0), Instant)], s1, [Issue(Call(1), Instant)], s);
  }

  lemma PipedIsStranded(p: Params) returns (after: Session)
    requires Allowed(p) && MayStrand(p) && p.maxPiped > 1
    ensures Reaches(p, Init(p), StrandingRun(p), after)
    ensures |after.slots| > 0 && after.slots[0] == Slot([Call(1)], 1, Down)
  {
    var issues := [Issue(Call(0), Instant)] + [Issue(Call(1), Instant)];
    var s2 := LoadTwo(p);
    var s3 := SendFirst(p, s2, [Call(0), Call(1)]);
    after := PlainReply(p, s3, p.failureStatus + 1);
    ReachesOn(p, Init(p), issues, s2, [SendDone(0)], s3);
    ReachesOn(p, Init(p), issues + [SendDone(0)], s3, [ReplyDone(0, p.failureStatus + 1, Instant)], after);
  }

  lemma RetriedIsStranded(p: Params) returns (after: Session)
    requires Allowed(p) && MayStrand(p) && p.maxPiped == 1
    ensures Reaches(p, Init(p), StrandingRun(p), after)
    ensures |after.slots| > 0 && after.slots[0] == Slot([Call(0)], 1, Down)
  {
    var e1, e2 := Issue(Call(0), Instant), SendDone(0);
    var s1 := Load(p, Init(p), [], Call(0));
    assert [] + [Call(0)] == [Call(0)];
    var s2 := SendFirst(p, s1, [Call(0)]);
    after := RetriedReply(p, s2, p.failureStatus);
    ReachesOn(p, Init(p), [e1], s1, [e2], s2);
    ReachesOn(p, Init(p), [e1] + [e2], s2, [ReplyDone(0, p.failureStatus, Instant)], after);
  }

  /** And a full slot without a connection stays as it is: its calls are never sent. */
  lemma {:induction false} StrandedForever(p: Params, s: Session, i: nat, es: seq<Event>)
    requires Inv(p, s) && Legal(p, s, es)
    requires i < |s.slots| && s.slots[i].link.Down? && |s.slots[i].pending| == p.maxPiped
    ensures |Run(p, s, es).slots| == |s.slots| && Run(p, s, es).slots[i] == s.slots[i]
    decreases |es|
  {
    if |es| > 0 {
      StepKeepsInv(p, s, es[0]);
      FullSlotIsLeftAlone(p, s, es[0], i);
      StrandedForever(p, Step(p, s, es[0]), i, es[1..]);
    }
  }

  lemma FullSlotIsLeftAlone(p: Params, s: Session, e: Event, i: nat)
    requires Inv(p, s) && Enabled(s, e) && i < |s.slots| && s.slots[i].link.Down? && |s.slots[i].pending| == p.maxPiped
    ensures |Step(p, s, e).slots| == |s.slots| && Step(p, s, e).slots[i] == s.slots[i]
  {
    match e
    case ReplyDone(j, code, a) =>
      PopSlot(p, s.slots, j);
      NotRepliedTo(p, s, j, code, a, i);
    case Issue(call, a) => NotIssuedTo(p, s.(issued := s.issued + multiset{call}), call, a, i);
    case TimedOut(_) =>
    case Connected(_) =>
    case ConnFailed(_, _) =>
    case SendDone(_) =>
  }

  lemma NotRepliedTo(p: Params, s: Session, j: nat, code: int, a: Attempt, i: nat)
    requires Sane(s) && i < |s.slots| && j < |s.slots| && s.slots[j].link.Up? && s.slots[j].link.recvq != []
    requires s.slots[j].pending != [] && s.slots[j].sent > 0
    requires s.slots[i].link.Down? && |s.slots[i].pending| == p.maxPiped
    ensures |CallDone(p, s, j, code, a).slots| == |s.slots| && CallDone(p, s, j, code, a).slots[i] == s.slots[i]
  {
    NotIssuedTo(p, s.(slots := s.slots[j := Pop(s.slots[j])]), s.slots[j].link.recvq[0], a, i);
  }

  lemma NotIssuedTo(p: Params, s: Session, call: Call, a: Attempt, i: nat)
    requires Sane(s) && i < |s.slots| && |s.slots[i].pending| == p.maxPiped
    ensures |IssueCall(p, s, call, a).slots| == |s.slots| && IssueCall(p, s, call, a).slots[i] == s.slots[i]
  {
  }
}
