/** The start barrier of the SQL trace replayer: each worker counts itself down under sync_m, takes
    cond_m before it gives sync_m back, and waits on the condition; main polls the count under
    sync_m and then broadcasts under cond_m. The model is the interleaving of main and any number
    of workers, with the spurious wakeups that pthread_cond_wait permits. */
module StartBarrier {

  /** Where a worker is; `Past` is a worker that replays the trace, or has done so. */
  datatype Place = Begin | HasSync | Counted | HasBoth | HasCond | Waiting | Woken | Leaving | Past

  /** Where main is: polling, inside the poll, out of the loop with and without sync_m, about to
      broadcast, having broadcast, and further on. */
  datatype MainPlace = Polling | InPoll | LeftLoop | PastPoll | AtBroadcast | Broadcast | Started

  datatype Owner = Nobody | Main | Worker(w: nat)

  datatype State = State(
    workers: seq<Place>, main: MainPlace, sync: Owner, cond: Owner, syncI: int, done: bool, counted: bool)

  datatype Step =
    | LockSync(w: nat) | Count(w: nat) | LockCond(w: nat) | UnlockSync(w: nat) | Wait(w: nat)
    | WakeUp(w: nat)      // without a broadcast
    | Relock(w: nat) | UnlockCond(w: nat)
    | Finish(w: nat)      // the trace is complete: done := 2
    | MainLock | MainLeave | MainAgain | MainUnlock | MainLockCond | MainBroadcast | MainUnlockCond

  function Start(n: nat): State {
    State(seq(n, _ => Begin), Polling, Nobody, Nobody, n, false, false)
  }

  predicate At(s: State, w: nat, p: Place) {
    w < |s.workers| && s.workers[w] == p
  }

  predicate Enabled(s: State, e: Step) {
    match e
    case LockSync(w) => At(s, w, Begin) && s.sync.Nobody?
    case Count(w) => At(s, w, HasSync)
    case LockCond(w) => At(s, w, Counted) && s.cond.Nobody?
    case UnlockSync(w) => At(s, w, HasBoth)
    case Wait(w) => At(s, w, HasCond)
    case WakeUp(w) => At(s, w, Waiting)
    case Relock(w) => At(s, w, Woken) && s.cond.Nobody?
    case UnlockCond(w) => At(s, w, Leaving)
    case Finish(w) => At(s, w, Past)
    case MainLock => s.main.Polling? && s.sync.Nobody?
    case MainLeave => s.main.InPoll? && (s.syncI == 0 || s.done)
    case MainAgain => s.main.InPoll? && !(s.syncI == 0 || s.done)
    case MainUnlock => s.main.LeftLoop?
    case MainLockCond => s.main.PastPoll? && s.cond.Nobody?
    case MainBroadcast => s.main.AtBroadcast?
    case MainUnlockCond => s.main.Broadcast?
  }

  function Move(s: State, w: nat, p: Place): State
    requires w < |s.workers|
  {
    s.(workers := s.workers[w := p])
  }

  function WakeAll(ws: seq<Place>): seq<Place> {
    seq(|ws|, i requires 0 <= i < |ws| => if ws[i].Waiting? then Woken else ws[i])
  }

  /** `counted` notes whether main saw the count at zero when it left its loop. */
  function Next(s: State, e: Step): State
    requires Enabled(s, e)
  {
    match e
    case LockSync(w) => Move(s, w, HasSync).(sync := Worker(w))
    case Count(w) => Move(s, w, Counted).(syncI := s.syncI - 1)
    case LockCond(w) => Move(s, w, HasBoth).(cond := Worker(w))
    case UnlockSync(w) => Move(s, w, HasCond).(sync := Nobody)
    case Wait(w) => Move(s, w, Waiting).(cond := Nobody)
    case WakeUp(w) => Move(s, w, Woken)
    case Relock(w) => Move(s, w, Leaving).(cond := Worker(w))
    case UnlockCond(w) => Move(s, w, Past).(cond := Nobody)
    case Finish(w) => s.(done := true)
    case MainLock => s.(main := InPoll, sync := Main)
    case MainLeave => s.(main := LeftLoop, counted := s.syncI == 0)
    case MainAgain => s.(main := Polling, sync := Nobody)
    case MainUnlock => s.(main := PastPoll, sync := Nobody)
    case MainLockCond => s.(main := AtBroadcast, cond := Main)
    case MainBroadcast => s.(main := Broadcast, workers := WakeAll(s.workers))
    case MainUnlockCond => s.(main := Started, cond := Nobody)
  }

  predicate Legal(s: State, es: seq<Step>)
    decreases |es|
  {
    |es| == 0 || (Enabled(s, es[0]) && Legal(Next(s, es[0]), es[1..]))
  }

  function Run(s: State, es: seq<Step>): State
    requires Legal(s, es)
    decreases |es|
  {
    if |es| == 0 then s else Run(Next(s, es[0]), es[1..])
  }

  // ------------------------------------------------------------------ what is kept

  predicate HoldsSync(p: Place) {
    p.HasSync? || p.Counted? || p.HasBoth?
  }

  predicate HoldsCond(p: Place) {
    p.HasBoth? || p.HasCond? || p.Leaving?
  }

  /** Workers that have still to count themselves. */
  function Uncounted(ws: seq<Place>): nat {
    if |ws| == 0 then 0 else (if ws[0].Begin? || ws[0].HasSync? then 1 else 0) + Uncounted(ws[1..])
  }

  /** In or past pthread_cond_wait. */
  predicate Arrived(p: Place) {
    p.Waiting? || p.Woken? || p.Leaving? || p.Past?
  }

  predicate LocksOk(s: State) {
    && (forall w :: 0 <= w < |s.workers| ==> (HoldsSync(s.workers[w]) <==> s.sync == Worker(w)))
    && (forall w :: 0 <= w < |s.workers| ==> (HoldsCond(s.workers[w]) <==> s.cond == Worker(w)))
    && (s.sync.Worker? ==> s.sync.w < |s.workers|) && (s.cond.Worker? ==> s.cond.w < |s.workers|)
    && (s.sync.Main? <==> s.main.InPoll? || s.main.LeftLoop?)
    && (s.cond.Main? <==> s.main.AtBroadcast? || s.main.Broadcast?)
  }

  /** Once main has seen the count at zero, every worker has released sync_m, which it does only
      with cond_m in its hands; and once main has cond_m, every worker has given that up too. */
  predicate WorkersOk(s: State) {
    && s.syncI == Uncounted(s.workers)
    && (s.counted ==> !s.main.Polling? && !s.main.InPoll? && forall w :: 0 <= w < |s.workers| ==>
         s.workers[w].HasCond? || Arrived(s.workers[w]))
    && (s.counted && (s.main.AtBroadcast? || s.main.Broadcast? || s.main.Started?) ==>
         forall w :: 0 <= w < |s.workers| ==> Arrived(s.workers[w]))
    && (s.counted && (s.main.Broadcast? || s.main.Started?) ==>
         forall w :: 0 <= w < |s.workers| ==> !s.workers[w].Waiting?)
  }

  lemma {:induction false} UncountedUpdate(ws: seq<Place>, w: nat, p: Place)
    requires w < |ws|
    ensures Uncounted(ws[w := p]) + (if ws[w].Begin? || ws[w].HasSync? then 1 else 0)
         == Uncounted(ws) + if p.Begin? || p.HasSync? then 1 else 0
  {
    if w > 0 {
      UncountedUpdate(ws[1..], w - 1, p);
      assert ws[w := p][1..] == ws[1..][w - 1 := p];
    } else {
      assert ws[0 := p][1..] == ws[1..];
    }
  }

  lemma {:induction false} UncountedZero(ws: seq<Place>, w: nat)
    requires w < |ws| && Uncounted(ws) == 0
    ensures !ws[w].Begin? && !ws[w].HasSync?
  {
    if w > 0 {
      UncountedZero(ws[1..], w - 1);
    }
  }

  lemma {:induction false} WakingCountsNobody(ws: seq<Place>)
    ensures Uncounted(WakeAll(ws)) == Uncounted(ws)
  {
    if |ws| > 0 {
      WakingCountsNobody(ws[1..]);
      assert WakeAll(ws)[1..] == WakeAll(ws[1..]);
    }
  }

  predicate OfMain(e: Step) {
    || e.MainLock? || e.MainLeave? || e.MainAgain? || e.MainUnlock?
    || e.MainLockCond? || e.MainBroadcast? || e.MainUnlockCond?
  }

  /** A worker's step changes one worker, and may hand over one of the locks. */
  lemma WorkerKeepsLocks(s: State, w: nat, p: Place, after: State)
    requires LocksOk(s) && w < |s.workers| && after.workers == s.workers[w := p] && after.main == s.main
    requires after.sync == if HoldsSync(p) then Worker(w) else if HoldsSync(s.workers[w]) then Nobody else s.sync
    requires after.cond == if HoldsCond(p) then Worker(w) else if HoldsCond(s.workers[w]) then Nobody else s.cond
    requires HoldsSync(p) ==> s.sync.Nobody? || HoldsSync(s.workers[w])
    requires HoldsCond(p) ==> s.cond.Nobody? || HoldsCond(s.workers[w])
    ensures LocksOk(after)
  {
    assert HoldsSync(s.workers[w]) <==> s.sync == Worker(w);
    assert HoldsCond(s.workers[w]) <==> s.cond == Worker(w);
    forall v | 0 <= v < |after.workers|
      ensures (HoldsSync(after.workers[v]) <==> after.sync == Worker(v))
                && (HoldsCond(after.workers[v]) <==> after.cond == Worker(v))
    {
      assert (HoldsSync(s.workers[v]) <==> s.sync == Worker(v)) && (HoldsCond(s.workers[v]) <==> s.cond == Worker(v));
    }
  }

  lemma MainKeepsLocks(s: State, e: Step)
    requires LocksOk(s) && Enabled(s, e) && OfMain(e)
    ensures LocksOk(Next(s, e))
  {
    var after := Next(s, e);
    forall v | 0 <= v < |after.workers|
      ensures (HoldsSync(after.workers[v]) <==> after.sync == Worker(v))
                && (HoldsCond(after.workers[v]) <==> after.cond == Worker(v))
    {
      assert (HoldsSync(s.workers[v]) <==> s.sync == Worker(v)) && (HoldsCond(s.workers[v]) <==> s.cond == Worker(v));
    }
  }

  predicate Arriving(e: Step) {
    e.LockSync? || e.Count? || e.LockCond? || e.UnlockSync?
  }

  lemma ArrivalKeepsLocks(s: State, e: Step)
    requires LocksOk(s) && Enabled(s, e) && Arriving(e)
    ensures LocksOk(Next(s, e))
  {
    match e
    case LockSync(w) => WorkerKeepsLocks(s, w, HasSync, Next(s, e));
    case Count(w) => WorkerKeepsLocks(s, w, Counted, Next(s, e));
    case LockCond(w) => WorkerKeepsLocks(s, w, HasBoth, Next(s, e));
    case UnlockSync(w) => WorkerKeepsLocks(s, w, HasCond, Next(s, e));
  }

  lemma WaitKeepsLocks(s: State, e: Step)
    requires LocksOk(s) && Enabled(s, e) && !Arriving(e) && !OfMain(e)
    ensures LocksOk(Next(s, e))
  {
    match e
    case Wait(w) => WorkerKeepsLocks(s, w, Waiting, Next(s, e));
    case WakeUp(w) => WorkerKeepsLocks(s, w, Woken, Next(s, e));
    case Relock(w) => WorkerKeepsLocks(s, w, Leaving, Next(s, e));
    case UnlockCond(w) => WorkerKeepsLocks(s, w, Past, Next(s, e));
    case Finish(w) =>
  }

  lemma StepKeepsLocks(s: State, e: Step)
    requires LocksOk(s) && Enabled(s, e)
    ensures LocksOk(Next(s, e))
  {
    if Arriving(e) {
      ArrivalKeepsLocks(s, e);
    } else if OfMain(e) {
      MainKeepsLocks(s, e);
    } else {
      WaitKeepsLocks(s, e);
    }
  }

  lemma WorkerKeepsWorkers(s: State, w: nat, p: Place, after: State)
    requires LocksOk(s) && WorkersOk(s) && w < |s.workers| && after.workers == s.workers[w := p]
    requires after.main == s.main && after.counted == s.counted
    requires after.syncI + (if s.workers[w].Begin? || s.workers[w].HasSync? then 1 else 0)
             == s.syncI + if p.Begin? || p.HasSync? then 1 else 0
    requires s.workers[w].HasCond? || Arrived(s.workers[w]) ==> Arrived(p)
    requires p.Waiting? ==> s.workers[w].HasCond?
    ensures WorkersOk(after)
  {
    UncountedUpdate(s.workers, w, p);
  }

  lemma MainKeepsWorkers(s: State, e: Step)
    requires LocksOk(s) && WorkersOk(s) && Enabled(s, e) && OfMain(e)
    ensures WorkersOk(Next(s, e))
  {
    WakingCountsNobody(s.workers);
    if e.MainLeave? && s.syncI == 0 {
      forall w | 0 <= w < |s.workers| ensures s.workers[w].HasCond? || Arrived(s.workers[w]) {
        UncountedZero(s.workers, w);
        assert HoldsSync(s.workers[w]) <==> s.sync == Worker(w);
      }
    } else if e.MainLockCond? {
      forall w | 0 <= w < |s.workers| ensures !s.workers[w].HasCond? {
        assert HoldsCond(s.workers[w]) <==> s.cond == Worker(w);
      }
    }
  }

  lemma ArrivalKeepsWorkers(s: State, e: Step)
    requires LocksOk(s) && WorkersOk(s) && Enabled(s, e) && Arriving(e)
    ensures WorkersOk(Next(s, e))
  {
    match e
    case LockSync(w) => WorkerKeepsWorkers(s, w, HasSync, Next(s, e));
    case Count(w) => WorkerKeepsWorkers(s, w, Counted, Next(s, e));
    case LockCond(w) => WorkerKeepsWorkers(s, w, HasBoth, Next(s, e));
    case UnlockSync(w) => WorkerKeepsWorkers(s, w, HasCond, Next(s, e));
  }

  lemma WaitKeepsWorkers(s: State, e: Step)
    requires LocksOk(s) && WorkersOk(s) && Enabled(s, e) && !Arriving(e) && !OfMain(e)
    ensures WorkersOk(Next(s, e))
  {
    match e
    case Wait(w) => WorkerKeepsWorkers(s, w, Waiting, Next(s, e));
    case WakeUp(w) => WorkerKeepsWorkers(s, w, Woken, Next(s, e));
    case Relock(w) => WorkerKeepsWorkers(s, w, Leaving, Next(s, e));
    case UnlockCond(w) => WorkerKeepsWorkers(s, w, Past, Next(s, e));
    case Finish(w) =>
  }

  lemma {:induction false} StepKeepsWorkers(s: State, e: Step)
    requires LocksOk(s) && WorkersOk(s) && Enabled(s, e)
    ensures WorkersOk(Next(s, e))
  {
    if Arriving(e) {
      ArrivalKeepsWorkers(s, e);
    } else if OfMain(e) {
      MainKeepsWorkers(s, e);
    } else {
      WaitKeepsWorkers(s, e);
    }
  }

  // ------------------------------------------------------------------ all runs

  lemma StartIsOk(n: nat)
    ensures LocksOk(Start(n)) && WorkersOk(Start(n))
  {
    AllUncounted(Start(n).workers);
  }

  lemma {:induction false} AllUncounted(ws: seq<Place>)
    requires forall w :: 0 <= w < |ws| ==> ws[w].Begin?
    ensures Uncounted(ws) == |ws|
  {
    if |ws| > 0 {
      AllUncounted(ws[1..]);
    }
  }

  lemma {:induction false} RunKeeps(s: State, es: seq<Step>)
    requires LocksOk(s) && WorkersOk(s) && Legal(s, es)
    ensures LocksOk(Run(s, es)) && WorkersOk(Run(s, es))
    decreases |es|
  {
    if |es| > 0 {
      StepKeepsLocks(s, es[0]);
      StepKeepsWorkers(s, es[0]);
      RunKeeps(Next(s, es[0]), es[1..]);
    }
  }

  /** If main left its loop because all workers had counted themselves, then all of them are in or
      past pthread_cond_wait when main is about to broadcast, and none waits after that. */
  lemma NoLostWakeup(n: nat, es: seq<Step>, w: nat)
    requires Legal(Start(n), es) && Run(Start(n), es).counted && w < |Run(Start(n), es).workers|
    ensures Run(Start(n), es).main.AtBroadcast? ==> Arrived(Run(Start(n), es).workers[w])
    ensures Run(Start(n), es).main.Broadcast? || Run(Start(n), es).main.Started? ==>
              !Run(Start(n), es).workers[w].Waiting?
  {
    StartIsOk(n);
    RunKeeps(Start(n), es);
  }

  // ------------------------------------------------------------------ when main leaves too early

  predicate NoWakeUp(es: seq<Step>) {
    forall e :: e in es ==> !e.WakeUp?
  }

  predicate MainIsOut(s: State) {
    !s.main.Polling? && !s.main.InPoll?
  }

  /** Nobody is past the wait before the broadcast, so main leaves its loop for the right reason. */
  predicate Orderly(s: State) {
    && (MainIsOut(s) ==> s.counted)
    && (!s.main.Broadcast? && !s.main.Started? ==>
         !s.done && forall w :: 0 <= w < |s.workers| ==>
           !s.workers[w].Woken? && !s.workers[w].Leaving? && !s.workers[w].Past?)
  }

  lemma StepIsOrderly(s: State, e: Step)
    requires Orderly(s) && Enabled(s, e) && !e.WakeUp?
    ensures Orderly(Next(s, e))
  {
  }

  lemma {:induction false} OrderlyWithoutWakeUps(s: State, es: seq<Step>)
    requires Orderly(s) && Legal(s, es) && NoWakeUp(es)
    ensures Orderly(Run(s, es))
    decreases |es|
  {
    if |es| > 0 {
      assert es[0] in es && forall e :: e in es[1..] ==> e in es;
      StepIsOrderly(s, es[0]);
      OrderlyWithoutWakeUps(Next(s, es[0]), es[1..]);
    }
  }

  /** With one worker, main never leaves too early. */
  predicate OneIsOrderly(s: State) {
    && |s.workers| == 1 && (MainIsOut(s) ==> s.counted) && (s.done ==> s.workers[0].Past?)
    && s.syncI == if s.workers[0].Begin? || s.workers[0].HasSync? then 1 else 0
  }

  lemma {:induction false} OneWorkerIsOrderly(s: State, es: seq<Step>)
    requires OneIsOrderly(s) && Legal(s, es)
    ensures OneIsOrderly(Run(s, es))
    decreases |es|
  {
    if |es| > 0 {
      OneWorkerIsOrderly(Next(s, es[0]), es[1..]);
    }
  }

  /** So no worker is left waiting: without wakeups other than by the broadcast, for any number of
      workers, and for one worker whatever happens. */
  lemma NobodyIsLeftWaiting(n: nat, es: seq<Step>, w: nat)
    requires Legal(Start(n), es) && (NoWakeUp(es) || n == 1) && w < |Run(Start(n), es).workers|
    ensures MainIsOut(Run(Start(n), es)) ==> Run(Start(n), es).counted
    ensures Run(Start(n), es).main.Started? ==> !Run(Start(n), es).workers[w].Waiting?
  {
    if n == 1 {
      OneWorkerIsOrderly(Start(n), es);
    } else {
      OrderlyWithoutWakeUps(Start(n), es);
    }
    if Run(Start(n), es).counted {
      NoLostWakeup(n, es, w);
    }
  }

  predicate Reaches(s: State, es: seq<Step>, after: State) {
    Legal(s, es) && Run(s, es) == after
  }

  lemma {:induction false} ReachesOn(s: State, a: seq<Step>, between: State, b: seq<Step>, after: State)
    requires Reaches(s, a, between) && Reaches(between, b, after)
    ensures Reaches(s, a + b, after)
    decreases |a|
  {
    if |a| == 0 {
      assert a + b == b;
    } else {
      assert (a + b)[1..] == a[1..] + b && (a + b)[0] == a[0];
      ReachesOn(Next(s, a[0]), a[1..], between, b, after);
    }
  }

  lemma Then(s: State, a: seq<Step>, between: State, e: Step) returns (es: seq<Step>, after: State)
    requires Reaches(s, a, between) && Enabled(between, e)
    ensures es == a + [e] && after == Next(between, e) && Reaches(s, es, after)
  {
    es, after := a + [e], Next(between, e);
    assert [e][1..] == [];
    ReachesOn(s, a, between, [e], after);
  }

  lemma WorkerArrives(s: State, w: nat) returns (es: seq<Step>, after: State)
    requires At(s, w, Begin) && s.sync.Nobody? && s.cond.Nobody?
    ensures Reaches(s, es, after) && after == s.(workers := s.workers[w := Waiting], syncI := s.syncI - 1)
  {
    es, after := Then(s, [], s, LockSync(w));
    es, after := Then(s, es, after, Count(w));
    es, after := Then(s, es, after, LockCond(w));
    es, after := Then(s, es, after, UnlockSync(w));
    es, after := Then(s, es, after, Wait(w));
  }

  lemma WorkerWakesAndFinishes(s: State, w: nat) returns (es: seq<Step>, after: State)
    requires At(s, w, Waiting) && s.cond.Nobody?
    ensures Reaches(s, es, after) && after == s.(workers := s.workers[w := Past], done := true)
  {
    es, after := Then(s, [], s, WakeUp(w));
    es, after := Then(s, es, after, Relock(w));
    es, after := Then(s, es, after, UnlockCond(w));
    es, after := Then(s, es, after, Finish(w));
  }

  lemma MainLeavesForDone(s: State) returns (es: seq<Step>, after: State)
    requires s.done && s.main.Polling? && s.sync.Nobody? && s.cond.Nobody?
    ensures Reaches(s, es, after)
    ensures after == s.(main := Started, counted := s.syncI == 0, workers := WakeAll(s.workers))
  {
    es, after := Then(s, [], s, MainLock);
    es, after := Then(s, es, after, MainLeave);
    es, after := Then(s, es, after, MainUnlock);
    es, after := Then(s, es, after, MainLockCond);
    es, after := Then(s, es, after, MainBroadcast);
    es, after := Then(s, es, after, MainUnlockCond);
  }

  /** With two workers or more, one spurious wakeup is enough: that worker completes the trace, main
      takes this as its signal to go on, and a worker that arrives after the broadcast waits. */
  lemma WakeUpCanStrand(n: nat) returns (es: seq<Step>, after: State)
    requires n >= 2
    ensures Legal(Start(n), es) && after == Run(Start(n), es) && after.main.Started? && At(after, 1, Waiting)
  {
    var s := Start(n);
    var more;
    es, after := WorkerArrives(s, 0);
    var mid := after;
    more, after := WorkerWakesAndFinishes(mid, 0);
    ReachesOn(s, es, mid, more, after);
    es, mid := es + more, after;
    more, after := MainLeavesForDone(mid);
    ReachesOn(s, es, mid, more, after);
    es, mid := es + more, after;
    more, after := WorkerArrives(mid, 1);
    ReachesOn(s, es, mid, more, after);
    es := es + more;
  }

  predicate LeavesNobody(s: State) {
    s.main.Started? ==> forall w: nat :: w < |s.workers| ==> !s.workers[w].Waiting?
  }

  lemma {:induction false} NoWorkersAppear(s: State, es: seq<Step>)
    requires Legal(s, es)
    ensures |Run(s, es).workers| == |s.workers|
    decreases |es|
  {
    if |es| > 0 {
      NoWorkersAppear(Next(s, es[0]), es[1..]);
    }
  }

  /** The barrier is sure to leave nobody behind exactly when there is one worker at most. */
  lemma SafeExactlyForOne(n: nat)
    ensures (forall es :: Legal(Start(n), es) ==> LeavesNobody(Run(Start(n), es))) <==> n <= 1
  {
    if n <= 1 {
      forall es | Legal(Start(n), es) ensures LeavesNobody(Run(Start(n), es)) {
        NoWorkersAppear(Start(n), es);
        var s := Run(Start(n), es);
        if s.main.Started? && n == 1 {
          NobodyIsLeftWaiting(n, es, 0);
        }
      }
    } else {
      var es, after := WakeUpCanStrand(n);
      assert after.workers[1].Waiting?;
    }
  }

  /** And it waits for ever, unless it wakes up spuriously as well. */
  lemma {:induction false} StrandedForever(s: State, es: seq<Step>, w: nat)
    requires s.main.Started? && At(s, w, Waiting) && Legal(s, es) && NoWakeUp(es)
    ensures At(Run(s, es), w, Waiting)
    decreases |es|
  {
    if |es| > 0 {
      assert es[0] in es && forall e :: e in es[1..] ==> e in es;
      StrandedForever(Next(s, es[0]), es[1..], w);
    }
  }

  // ------------------------------------------------------------------ no deadlock

  predicate AllStarted(s: State) {
    s.main.Started? && forall w :: 0 <= w < |s.workers| ==> s.workers[w].Past?
  }

  /** Whoever holds cond_m can go on. */
  lemma CondHolderMoves(s: State) returns (e: Step)
    requires LocksOk(s) && !s.cond.Nobody? && (s.cond.Worker? ==> !HoldsSync(s.workers[s.cond.w]))
    ensures Enabled(s, e) && !e.WakeUp? && !e.Finish? && !e.MainLock?
  {
    if s.cond.Main? {
      e := if s.main.AtBroadcast? then MainBroadcast else MainUnlockCond;
    } else {
      var w := s.cond.w;
      assert HoldsCond(s.workers[w]);
      e := if s.workers[w].HasCond? then Wait(w) else UnlockCond(w);
    }
  }

  lemma SyncHolderMoves(s: State) returns (e: Step)
    requires LocksOk(s) && !s.sync.Nobody?
    ensures Enabled(s, e) && !e.WakeUp? && !e.Finish? && !e.MainLock?
  {
    if s.sync.Main? {
      e := if s.main.LeftLoop? then MainUnlock else if s.syncI == 0 || s.done then MainLeave else MainAgain;
    } else {
      var w := s.sync.w;
      assert HoldsSync(s.workers[w]);
      if s.workers[w].HasSync? {
        e := Count(w);
      } else if s.workers[w].HasBoth? {
        e := UnlockSync(w);
      } else if s.cond.Nobody? {
        e := LockCond(w);
      } else {
        if s.cond.Worker? {
          assert HoldsCond(s.workers[s.cond.w]) && (HoldsSync(s.workers[s.cond.w]) <==> s.sync == Worker(s.cond.w));
        }
        e := CondHolderMoves(s);
      }
    }
  }

  /** As long as main does not leave too early, the two locks never block everybody: until all
      workers have started, somebody can take a step, without any spurious wakeup. */
  lemma NoDeadlock(n: nat, es: seq<Step>) returns (e: Step)
    requires Legal(Start(n), es) && (MainIsOut(Run(Start(n), es)) ==> Run(Start(n), es).counted)
    requires !AllStarted(Run(Start(n), es))
    ensures Enabled(Run(Start(n), es), e) && !e.WakeUp? && !e.Finish?
  {
    var s := Run(Start(n), es);
    StartIsOk(n);
    RunKeeps(Start(n), es);
    if !s.sync.Nobody? {
      e := SyncHolderMoves(s);
    } else if !s.cond.Nobody? {
      if s.cond.Worker? {
        assert HoldsSync(s.workers[s.cond.w]) <==> s.sync == Worker(s.cond.w);
      }
      e := CondHolderMoves(s);
    } else if s.main.Polling? {
      e := MainLock;
    } else if s.main.PastPoll? {
      e := MainLockCond;
    } else {
      var w :| 0 <= w < |s.workers| && !s.workers[w].Past?;
      assert HoldsCond(s.workers[w]) <==> s.cond == Worker(w);
      e := Relock(w);
    }
  }

  /** How many steps a worker is away from replaying the trace. */
  function ToGo(p: Place): nat {
    match p
    case Begin => 8
    case HasSync => 7
    case Counted => 6
    case HasBoth => 5
    case HasCond => 4
    case Waiting => 3
    case Woken => 2
    case Leaving => 1
    case Past => 0
  }

  function AllToGo(ws: seq<Place>): nat {
    if |ws| == 0 then 0 else ToGo(ws[0]) + AllToGo(ws[1..])
  }

  /** Main has a poll for nothing before it as long as workers have to be counted. */
  function MainToGo(s: State): nat {
    match s.main
    case InPoll => if s.syncI == 0 then 5 else 7
    case Polling => 6
    case LeftLoop => 4
    case PastPoll => 3
    case AtBroadcast => 2
    case Broadcast => 1
    case Started => 0
  }

  function Distance(s: State): nat {
    AllToGo(s.workers) + MainToGo(s)
  }

  lemma {:induction false} MoveBrings(ws: seq<Place>, w: nat, p: Place)
    requires w < |ws|
    ensures AllToGo(ws[w := p]) + ToGo(ws[w]) == AllToGo(ws) + ToGo(p)
  {
    if w > 0 {
      MoveBrings(ws[1..], w - 1, p);
      assert ws[w := p][1..] == ws[1..][w - 1 := p];
    } else {
      assert ws[0 := p][1..] == ws[1..];
    }
  }

  lemma {:induction false} WakingBrings(ws: seq<Place>)
    ensures AllToGo(WakeAll(ws)) <= AllToGo(ws)
  {
    if |ws| > 0 {
      WakingBrings(ws[1..]);
      assert WakeAll(ws)[1..] == WakeAll(ws[1..]);
    }
  }

  lemma {:induction false} SomeoneToCount(ws: seq<Place>) returns (w: nat)
    requires Uncounted(ws) > 0
    ensures w < |ws| && (ws[w].Begin? || ws[w].HasSync?)
  {
    if ws[0].Begin? || ws[0].HasSync? {
      w := 0;
    } else {
      w := SomeoneToCount(ws[1..]);
      w := w + 1;
    }
  }

  lemma StepForward(s: State) returns (e: Step)
    requires LocksOk(s) && WorkersOk(s) && Orderly(s) && !AllStarted(s)
    ensures Enabled(s, e) && !e.WakeUp? && !e.Finish? && (e.MainLock? ==> s.syncI == 0)
  {
    if !s.sync.Nobody? {
      e := SyncHolderMoves(s);
    } else if !s.cond.Nobody? {
      if s.cond.Worker? {
        assert HoldsSync(s.workers[s.cond.w]) <==> s.sync == Worker(s.cond.w);
      }
      e := CondHolderMoves(s);
    } else if s.main.Polling? {
      if s.syncI == 0 {
        e := MainLock;
      } else {
        var w := SomeoneToCount(s.workers);
        assert HoldsSync(s.workers[w]) <==> s.sync == Worker(w);
        e := LockSync(w);
      }
    } else if s.main.PastPoll? {
      e := MainLockCond;
    } else {
      var w :| 0 <= w < |s.workers| && !s.workers[w].Past?;
      assert HoldsCond(s.workers[w]) <==> s.cond == Worker(w);
      e := Relock(w);
    }
  }

  lemma WorkerIsNearer(s: State, e: Step, w: nat, p: Place)
    requires LocksOk(s) && Enabled(s, e) && w < |s.workers| && Next(s, e).workers == s.workers[w := p]
    requires Next(s, e).main == s.main && (s.main.InPoll? ==> Next(s, e).syncI == s.syncI)
    requires ToGo(p) < ToGo(s.workers[w])
    ensures Distance(Next(s, e)) < Distance(s)
  {
    MoveBrings(s.workers, w, p);
  }

  lemma MainIsNearer(s: State, e: Step)
    requires Enabled(s, e) && OfMain(e) && (e.MainLock? ==> s.syncI == 0) && (s.main.InPoll? ==> !s.done)
    ensures Distance(Next(s, e)) < Distance(s)
  {
    WakingBrings(s.workers);
  }

  lemma ForwardIsNearer(s: State, e: Step)
    requires LocksOk(s) && Enabled(s, e) && !e.WakeUp? && !e.Finish? && (e.MainLock? ==> s.syncI == 0)
    requires s.main.InPoll? ==> !s.done
    ensures Distance(Next(s, e)) < Distance(s)
  {
    match e
    case LockSync(w) => WorkerIsNearer(s, e, w, HasSync);
    case Count(w) =>
      assert HoldsSync(s.workers[w]);
      WorkerIsNearer(s, e, w, Counted);
    case LockCond(w) => WorkerIsNearer(s, e, w, HasBoth);
    case UnlockSync(w) => WorkerIsNearer(s, e, w, HasCond);
    case Wait(w) => WorkerIsNearer(s, e, w, Waiting);
    case Relock(w) => WorkerIsNearer(s, e, w, Leaving);
    case UnlockCond(w) => WorkerIsNearer(s, e, w, Past);
    case _ => MainIsNearer(s, e);
  }

  /** A step by which everybody gets nearer to the start. */
  lemma OneStepNearer(s: State) returns (e: Step, t: State)
    requires LocksOk(s) && WorkersOk(s) && Orderly(s) && !AllStarted(s)
    ensures Enabled(s, e) && !e.WakeUp? && t == Next(s, e) && Distance(t) < Distance(s)
    ensures LocksOk(t) && WorkersOk(t) && Orderly(t)
  {
    e := StepForward(s);
    t := Next(s, e);
    ForwardIsNearer(s, e);
    StepKeepsLocks(s, e);
    StepKeepsWorkers(s, e);
    StepIsOrderly(s, e);
  }

  /** Nobody is locked out: without spurious wakeups everybody can get to the start from wherever a
      run has come to. */
  lemma {:induction false} CanGetToStart(s: State) returns (es: seq<Step>)
    requires LocksOk(s) && WorkersOk(s) && Orderly(s)
    ensures Legal(s, es) && NoWakeUp(es) && AllStarted(Run(s, es))
    decreases Distance(s)
  {
    if AllStarted(s) {
      es := [];
    } else {
      var e, t := OneStepNearer(s);
      var more := CanGetToStart(t);
      es := [e] + more;
      assert es[1..] == more;
    }
  }

  lemma EverybodyCanStart(n: nat, es: seq<Step>) returns (more: seq<Step>)
    requires Legal(Start(n), es) && NoWakeUp(es)
    ensures Legal(Run(Start(n), es), more) && NoWakeUp(more) && AllStarted(Run(Run(Start(n), es), more))
  {
    StartIsOk(n);
    RunKeeps(Start(n), es);
    OrderlyWithoutWakeUps(Start(n), es);
    more := CanGetToStart(Run(Start(n), es));
  }
}
