/** What can happen to a session, and when it fails, said of what has happened to it: a watcher who
    sees only the events, and counts for each slot the calls that are pending, those that have been
    sent and the replies since its connection was made, knows which events are possible and what
    their outcome is. */
module SessionOutcome {
  import opened SessionModel

  /** What the watcher knows of a slot: whether it has a connection and that is ready, the calls that
      are pending, those of them that have been sent on it, and the replies that it has brought. */
  datatype Seen = Seen(pending: nat, open: bool, ready: bool, sent: nat, replies: nat)

  /** The slots at first. */
  function Fresh(p: Params): seq<Seen> {
    seq(p.maxConns, _ => Seen(0, false, false, 0, 0))
  }

  /** The first slot, from k on, with fewer calls than are allowed. */
  function FirstFree(seen: seq<Seen>, max: nat, k: nat): nat
    requires k <= |seen|
    decreases |seen| - k
  {
    if k == |seen| then k else if seen[k].pending < max then k else FirstFree(seen, max, k + 1)
  }

  /** A new connection, which is ready at once or later. */
  function Anew(pending: nat, a: Attempt): Seen {
    Seen(pending, true, a == Instant, 0, 0)
  }

  /** A call goes to the first slot with room; if that has no connection one is made. */
  function Put(p: Params, seen: seq<Seen>, a: Attempt): seq<Seen> {
    var i := FirstFree(seen, p.maxPiped, 0);
    if i >= |seen| then seen
    else if seen[i].open then seen[i := seen[i].(pending := seen[i].pending + 1)]
    else seen[i := Anew(seen[i].pending + 1, a)]
  }

  /** A reply with this status makes a call be issued again. */
  predicate Again(p: Params, code: int) {
    p.failureStatus != 0 && code == p.failureStatus && p.retryOnFailure
  }

  function OneLess(n: nat): nat {
    if n == 0 then 0 else n - 1
  }

  function Answered(seen: seq<Seen>, i: nat): seq<Seen>
    requires i < |seen|
  {
    var t := seen[i];
    seen[i := t.(pending := OneLess(t.pending), sent := OneLess(t.sent), replies := t.replies + 1)]
  }

  function Watch(p: Params, seen: seq<Seen>, e: Event): seq<Seen> {
    match e
    case Issue(_, a) => Put(p, seen, a)
    case Connected(i) => if i < |seen| then seen[i := seen[i].(ready := true)] else seen
    case ConnFailed(i, a) => if i < |seen| then seen[i := Anew(seen[i].pending, a)] else seen
    case TimedOut(_) => seen
    case SendDone(i) => if i < |seen| then seen[i := seen[i].(sent := seen[i].sent + 1)] else seen
    case ReplyDone(i, code, a) =>
      if i >= |seen| then seen
      else
        var after := if Again(p, code) then Put(p, Answered(seen, i), a) else Answered(seen, i);
        if p.httpVersion < 0x10001 && i < |after| then after[i := after[i].(open := false)] else after
  }

  /** What can happen on a connection: it becomes ready, or fails, or times out; calls are sent once
      it is ready, and are replied to once they have been sent. */
  predicate Possible(seen: seq<Seen>, e: Event) {
    match e
    case Issue(_, _) => true
    case Connected(i) => i < |seen| && seen[i].open && !seen[i].ready
    case ConnFailed(i, _) => i < |seen| && seen[i].open
    case TimedOut(i) => i < |seen| && seen[i].open
    case SendDone(i) => i < |seen| && seen[i].open && seen[i].ready && seen[i].sent < seen[i].pending
    case ReplyDone(i, _, _) => i < |seen| && seen[i].open && seen[i].ready && seen[i].sent > 0
  }

  function WatchAll(p: Params, seen: seq<Seen>, es: seq<Event>): seq<Seen>
    decreases |es|
  {
    if |es| == 0 then seen else WatchAll(p, Watch(p, seen, es[0]), es[1..])
  }

  /** A call is issued: the program exits if there is no room, and the session fails if a connection
      is needed that is refused. */
  function OutcomeOfCall(p: Params, seen: seq<Seen>, a: Attempt): Status {
    var i := FirstFree(seen, p.maxPiped, 0);
    if i >= |seen| then Exited else if !seen[i].open && a == Refused then Failed else Running
  }

  /** What an event makes of a session that runs. */
  function Outcome(p: Params, seen: seq<Seen>, e: Event): Status {
    match e
    case Issue(_, a) => OutcomeOfCall(p, seen, a)
    case TimedOut(_) => Failed
    case ConnFailed(i, a) =>
      if a == Refused || (!p.retryOnFailure && i < |seen| && seen[i].replies == 0) then Failed else Running
    case ReplyDone(i, code, a) =>
      if p.failureStatus == 0 || code != p.failureStatus then Running
      else if !p.retryOnFailure || i >= |seen| then Failed
      else OutcomeOfCall(p, Answered(seen, i), a)
    case _ => Running
  }

  // ------------------------------------------------------------------ the watcher is right

  predicate SlotSeen(t: Slot, seen: Seen) {
    && |t.pending| == seen.pending && t.link.Up? == seen.open
    && (t.link.Up? ==> t.link.connected == seen.ready && |t.link.recvq| == seen.sent
                       && (t.link.successful <==> seen.replies > 0))
  }

  predicate AllSeen(s: Session, seen: seq<Seen>) {
    |s.slots| == |seen| && forall i :: 0 <= i < |seen| ==> SlotSeen(s.slots[i], seen[i])
  }

  lemma {:induction false} SameRoom(s: Session, seen: seq<Seen>, max: nat, k: nat)
    requires AllSeen(s, seen) && k <= |seen|
    ensures FirstWithRoom(s.slots, max, k) == FirstFree(seen, max, k)
    decreases |seen| - k
  {
    if k < |seen| {
      assert SlotSeen(s.slots[k], seen[k]);
      if seen[k].pending >= max {
        SameRoom(s, seen, max, k + 1);
      }
    }
  }

  lemma PutIsSeen(p: Params, s: Session, call: Call, a: Attempt, seen: seq<Seen>)
    requires Sane(s) && s.status.Running? && AllSeen(s, seen)
    ensures AllSeen(IssueCall(p, s, call, a), Put(p, seen, a))
    ensures IssueCall(p, s, call, a).status == OutcomeOfCall(p, seen, a)
  {
    SameRoom(s, seen, p.maxPiped, 0);
    var i := FirstWithRoom(s.slots, p.maxPiped, 0);
    if i < |seen| {
      assert SlotSeen(s.slots[i], seen[i]);
    }
  }

  lemma DisposalIsSeen(p: Params, s: Session, call: Call, code: int, a: Attempt, seen: seq<Seen>)
    requires Sane(s) && s.status.Running? && AllSeen(s, seen)
    ensures AllSeen(Dispose(p, s, call, code, a), if Again(p, code) then Put(p, seen, a) else seen)
    ensures Dispose(p, s, call, code, a).status ==
            if p.failureStatus == 0 || code != p.failureStatus then Running
            else if !p.retryOnFailure then Failed else OutcomeOfCall(p, seen, a)
  {
    PutIsSeen(p, s, call, a, seen);
  }

  lemma CloseIsSeen(p: Params, s: Session, i: nat, seen: seq<Seen>)
    requires i < |s.slots| && AllSeen(s, seen)
    ensures CloseOld(p, s, i).status == s.status
    ensures AllSeen(CloseOld(p, s, i), if p.httpVersion < 0x10001 then seen[i := seen[i].(open := false)] else seen)
  {
    assert SlotSeen(s.slots[i], seen[i]);
  }

  lemma PopIsSeen(p: Params, s: Session, i: nat, seen: seq<Seen>) returns (popped: Session)
    requires Inv(p, s) && Enabled(s, ReplyDone(i, 0, Instant)) && AllSeen(s, seen)
    ensures s.slots[i].pending != [] && s.slots[i].sent > 0 && popped == s.(slots := s.slots[i := Pop(s.slots[i])])
    ensures AllSeen(popped, Answered(seen, i)) && Sane(popped)
  {
    PopSlot(p, s.slots, i);
    assert SlotSeen(s.slots[i], seen[i]);
    popped := s.(slots := s.slots[i := Pop(s.slots[i])]);
  }

  lemma RestIsSeen(p: Params, s: Session, i: nat, call: Call, code: int, a: Attempt, seen: seq<Seen>)
    requires Sane(s) && s.status.Running? && AllSeen(s, seen) && i < |Dispose(p, s, call, code, a).slots|
    ensures var after := if Again(p, code) then Put(p, seen, a) else seen;
      AllSeen(CloseOld(p, Dispose(p, s, call, code, a), i),
              if p.httpVersion < 0x10001 && i < |after| then after[i := after[i].(open := false)] else after)
    ensures CloseOld(p, Dispose(p, s, call, code, a), i).status ==
            if p.failureStatus == 0 || code != p.failureStatus then Running
            else if !p.retryOnFailure then Failed else OutcomeOfCall(p, seen, a)
  {
    DisposalIsSeen(p, s, call, code, a, seen);
    CloseIsSeen(p, Dispose(p, s, call, code, a), i, if Again(p, code) then Put(p, seen, a) else seen);
  }

  lemma ReplyIsSeen(p: Params, s: Session, i: nat, code: int, a: Attempt, seen: seq<Seen>)
    requires Inv(p, s) && Enabled(s, ReplyDone(i, code, a)) && AllSeen(s, seen)
    ensures AllSeen(Step(p, s, ReplyDone(i, code, a)), Watch(p, seen, ReplyDone(i, code, a)))
    ensures Step(p, s, ReplyDone(i, code, a)).status == Outcome(p, seen, ReplyDone(i, code, a))
  {
    var popped := PopIsSeen(p, s, i, seen);
    RestIsSeen(p, popped, i, s.slots[i].link.recvq[0], code, a, Answered(seen, i));
  }

  lemma StepIsSeen(p: Params, s: Session, e: Event, seen: seq<Seen>)
    requires Inv(p, s) && Enabled(s, e) && AllSeen(s, seen)
    ensures Step(p, s, e).status == Outcome(p, seen, e)
    ensures Step(p, s, e).status.Running? ==> AllSeen(Step(p, s, e), Watch(p, seen, e))
  {
    match e
    case Issue(call, a) => PutIsSeen(p, s.(issued := s.issued + multiset{call}), call, a, seen);
    case ReplyDone(i, code, a) => ReplyIsSeen(p, s, i, code, a, seen);
    case TimedOut(i) =>
    case SendDone(i) => assert SlotSeen(s.slots[i], seen[i]);
    case Connected(i) => assert SlotSeen(s.slots[i], seen[i]);
    case ConnFailed(i, a) => assert SlotSeen(s.slots[i], seen[i]);
  }

  lemma {:induction false} RunIsSeen(p: Params, s: Session, es: seq<Event>, seen: seq<Seen>)
    requires Inv(p, s) && Legal(p, s, es) && Run(p, s, es).status.Running? && AllSeen(s, seen)
    ensures AllSeen(Run(p, s, es), WatchAll(p, seen, es))
    decreases |es|
  {
    if |es| > 0 {
      StepKeepsInv(p, s, es[0]);
      StepIsSeen(p, s, es[0], seen);
      var s1 := Step(p, s, es[0]);
      if |es| > 1 {
        assert Enabled(s1, es[1..][0]);
      }
      RunIsSeen(p, s1, es[1..], Watch(p, seen, es[0]));
    }
  }

  lemma PossibleIsEnabled(p: Params, s: Session, e: Event, seen: seq<Seen>)
    requires Inv(p, s) && s.status.Running? && AllSeen(s, seen)
    ensures if e.Issue? then Enabled(s, e) <==> e.call !in AllPending(s.slots) else Enabled(s, e) <==> Possible(seen, e)
  {
    if !e.Issue? && e.slot < |seen| {
      assert SlotOk(p, s.slots[e.slot]) && SlotSeen(s.slots[e.slot], seen[e.slot]);
      assert s.slots[e.slot].link.Up? && s.slots[e.slot].link.connected ==>
        |s.slots[e.slot].link.recvq + s.slots[e.slot].link.sendq| == |s.slots[e.slot].pending|;
    }
  }

  /** In every run just those events can happen to connections that the watcher expects. */
  lemma EventsArePossible(p: Params, es: seq<Event>, e: Event)
    requires Allowed(p) && Legal(p, Init(p), es) && Run(p, Init(p), es).status.Running? && !e.Issue?
    ensures Enabled(Run(p, Init(p), es), e) <==> Possible(WatchAll(p, Fresh(p), es), e)
  {
    RunIsSeen(p, Init(p), es, Fresh(p));
    PossibleIsEnabled(p, Run(p, Init(p), es), e, WatchAll(p, Fresh(p), es));
  }

  /** In every run the outcome of the next event is the one that the watcher knows. */
  lemma OutcomesAreKnown(p: Params, es: seq<Event>, e: Event)
    requires Allowed(p) && Legal(p, Init(p), es) && Enabled(Run(p, Init(p), es), e)
    ensures Step(p, Run(p, Init(p), es), e).status == Outcome(p, WatchAll(p, Fresh(p), es), e)
  {
    RunIsSeen(p, Init(p), es, Fresh(p));
    StepIsSeen(p, Run(p, Init(p), es), e, WatchAll(p, Fresh(p), es));
  }

  /** A connection that fails is replaced, unless none is to be had, or failures are not retried and
      no reply has come since it was made; then the session fails. */
  lemma FailsExactlyWhen(p: Params, es: seq<Event>, i: nat, a: Attempt)
    requires Allowed(p) && Legal(p, Init(p), es) && Enabled(Run(p, Init(p), es), ConnFailed(i, a))
    ensures i < |WatchAll(p, Fresh(p), es)|
    ensures Step(p, Run(p, Init(p), es), ConnFailed(i, a)).status.Failed? <==>
            a == Refused || (!p.retryOnFailure && WatchAll(p, Fresh(p), es)[i].replies == 0)
  {
    RunIsSeen(p, Init(p), es, Fresh(p));
    OutcomesAreKnown(p, es, ConnFailed(i, a));
  }
}
