/** How the SQL trace replayer hands out the transactions of a trace: a shared counter, advanced
    under a mutex, gives each worker the number of its next transaction. */
module TraceDispenser {

  datatype Stm = Begin | Commit | Rollback | Select(q: string) | Write(q: string) | Temp(q: string)

  type Trace = seq<seq<Stm>>

  /** A statement of the trace: which transaction, and which statement of it. */
  datatype Place = Place(tid: nat, pos: nat)

  /** A worker: the transactions it has left behind, the number it was given last, how far it is
      in that transaction, and the statements it has executed. A worker whose generator is made
      when the trace has run out indexes past its end. */
  datatype Worker =
    | Idle
    | Running(left: seq<nat>, tid: nat, pos: nat, log: seq<Place>)
    | Stopped(left: seq<nat>, tid: nat, log: seq<Place>)
    | Broken(tid: nat)

  datatype State = State(gtid: nat, workers: seq<Worker>)

  datatype Step = Construct(w: nat) | GetNext(w: nat)

  predicate WellFormed(trace: Trace) {
    forall t :: 0 <= t < |trace| ==> |trace[t]| > 0
  }

  // ------------------------------------------------------------------ steps

  /** The constructor of SQLGenerator. */
  function Constructed(trace: Trace, tid: nat): Worker {
    if tid < |trace| then Running([], tid, 0, []) else Broken(tid)
  }

  predicate AtEnd(trace: Trace, w: Worker)
    requires w.Running? && w.tid < |trace|
  {
    w.pos == |trace[w.tid]|
  }

  /** getnext, and the execution of what it returns; `tid` is the counter's value. */
  function Advanced(trace: Trace, w: Worker, tid: nat): Worker
    requires w.Running? && w.tid < |trace|
  {
    if !AtEnd(trace, w) then w.(pos := w.pos + 1, log := w.log + [Place(w.tid, w.pos)])
    else if tid >= |trace| then Stopped(w.left + [w.tid], tid, w.log)
    else Running(w.left + [w.tid], tid, 1, w.log + [Place(tid, 0)])
  }

  predicate Enabled(s: State, e: Step) {
    match e
    case Construct(w) => w < |s.workers| && s.workers[w].Idle?
    case GetNext(w) => w < |s.workers| && s.workers[w].Running?
  }

  function Next(trace: Trace, s: State, e: Step): State
    requires WellFormed(trace) && Inv(trace, s) && Enabled(s, e)
  {
    match e
    case Construct(w) => State(s.gtid + 1, s.workers[w := Constructed(trace, s.gtid)])
    case GetNext(w) =>
      State(if AtEnd(trace, s.workers[w]) then s.gtid + 1 else s.gtid,
            s.workers[w := Advanced(trace, s.workers[w], s.gtid)])
  }

  function Start(n: nat): State {
    State(0, seq(n, _ => Idle))
  }

  // ------------------------------------------------------------------ what is kept

  /** The first n statements of a transaction. */
  function Part(tid: nat, n: nat): seq<Place> {
    if n == 0 then [] else Part(tid, n - 1) + [Place(tid, n - 1)]
  }

  predicate InTrace(trace: Trace, ts: seq<nat>) {
    forall i :: 0 <= i < |ts| ==> ts[i] < |trace|
  }

  /** Transactions, one after the other, each whole and in its order. */
  function Whole(trace: Trace, ts: seq<nat>): seq<Place>
    requires InTrace(trace, ts)
  {
    if |ts| == 0 then []
    else Whole(trace, ts[..|ts| - 1]) + Part(ts[|ts| - 1], |trace[ts[|ts| - 1]]|)
  }

  predicate WorkerOk(trace: Trace, w: Worker) {
    match w
    case Idle => true
    case Running(left, tid, pos, log) =>
      InTrace(trace, left) && tid < |trace| && pos <= |trace[tid]| && log == Whole(trace, left) + Part(tid, pos)
    case Stopped(left, tid, log) => InTrace(trace, left) && tid >= |trace| && log == Whole(trace, left)
    case Broken(tid) => tid >= |trace|
  }

  function TakenBy(w: Worker): seq<nat> {
    match w
    case Idle => []
    case Running(left, tid, _, _) => left + [tid]
    case Stopped(left, tid, _) => left + [tid]
    case Broken(tid) => [tid]
  }

  function Times(s: seq<nat>, t: nat): nat {
    if |s| == 0 then 0 else Times(s[..|s| - 1], t) + if s[|s| - 1] == t then 1 else 0
  }

  lemma TimesMore(s: seq<nat>, x: nat, t: nat)
    ensures Times(s + [x], t) == Times(s, t) + if x == t then 1 else 0
  {
    assert (s + [x])[..|s|] == s;
  }

  /** How often a number has been given out. */
  function Given(ws: seq<Worker>, t: nat): nat {
    if |ws| == 0 then 0 else Times(TakenBy(ws[0]), t) + Given(ws[1..], t)
  }

  /** Workers that have been given a number past the end of the trace. */
  function Ended(ws: seq<Worker>): nat {
    if |ws| == 0 then 0 else (if ws[0].Stopped? || ws[0].Broken? then 1 else 0) + Ended(ws[1..])
  }

  ghost predicate EachOnce(s: State) {
    forall t: nat :: Given(s.workers, t) == if t < s.gtid then 1 else 0
  }

  predicate WorkersOk(trace: Trace, ws: seq<Worker>) {
    forall w :: 0 <= w < |ws| ==> WorkerOk(trace, ws[w])
  }

  ghost predicate Inv(trace: Trace, s: State) {
    && WorkersOk(trace, s.workers) && EachOnce(s)
    && Ended(s.workers) == if s.gtid > |trace| then s.gtid - |trace| else 0
  }

  lemma {:induction false} GivenUpdate(ws: seq<Worker>, w: nat, x: Worker, t: nat)
    requires w < |ws|
    ensures Given(ws[w := x], t) + Times(TakenBy(ws[w]), t) == Given(ws, t) + Times(TakenBy(x), t)
  {
    if w > 0 {
      GivenUpdate(ws[1..], w - 1, x, t);
      assert ws[w := x][1..] == ws[1..][w - 1 := x];
    } else {
      assert ws[0 := x][1..] == ws[1..];
    }
  }

  lemma {:induction false} EndedUpdate(ws: seq<Worker>, w: nat, x: Worker)
    requires w < |ws|
    ensures Ended(ws[w := x]) + (if ws[w].Stopped? || ws[w].Broken? then 1 else 0)
         == Ended(ws) + if x.Stopped? || x.Broken? then 1 else 0
  {
    if w > 0 {
      EndedUpdate(ws[1..], w - 1, x);
      assert ws[w := x][1..] == ws[1..][w - 1 := x];
    } else {
      assert ws[0 := x][1..] == ws[1..];
    }
  }

  lemma {:induction false} StartIsOk(trace: Trace, n: nat)
    ensures Inv(trace, Start(n))
  {
    forall t: nat ensures Given(Start(n).workers, t) == 0 {
      NothingGiven(Start(n).workers, t);
    }
    NothingGiven(Start(n).workers, 0);
  }

  lemma {:induction false} NothingGiven(ws: seq<Worker>, t: nat)
    requires forall w :: 0 <= w < |ws| ==> ws[w].Idle?
    ensures Given(ws, t) == 0 && Ended(ws) == 0
  {
    if |ws| > 0 {
      NothingGiven(ws[1..], t);
    }
  }

  lemma WholeMore(trace: Trace, ts: seq<nat>, tid: nat)
    requires InTrace(trace, ts) && tid < |trace|
    ensures InTrace(trace, ts + [tid]) && Whole(trace, ts + [tid]) == Whole(trace, ts) + Part(tid, |trace[tid]|)
  {
    var more := ts + [tid];
    assert more[..|more| - 1] == ts;
  }

  lemma PartMore(before: seq<Place>, tid: nat, n: nat)
    ensures (before + Part(tid, n)) + [Place(tid, n)] == before + Part(tid, n + 1)
  {
    assert Part(tid, n + 1) == Part(tid, n) + [Place(tid, n)];
  }

  lemma AdvancedOk(trace: Trace, w: Worker, tid: nat)
    requires WellFormed(trace) && WorkerOk(trace, w) && w.Running?
    ensures WorkerOk(trace, Advanced(trace, w, tid))
  {
    if !AtEnd(trace, w) {
      PartMore(Whole(trace, w.left), w.tid, w.pos);
    } else {
      WholeMore(trace, w.left, w.tid);
      var before := Whole(trace, w.left + [w.tid]);
      assert w.log == before == before + Part(tid, 0);
      PartMore(before, tid, 0);
    }
  }

  lemma AdvancedTakes(trace: Trace, w: Worker, tid: nat)
    requires w.Running? && w.tid < |trace|
    ensures TakenBy(Advanced(trace, w, tid)) == if AtEnd(trace, w) then TakenBy(w) + [tid] else TakenBy(w)
  {
  }

  /** A worker that takes the counter's number, or goes on without. */
  lemma UpdateKeepsInv(trace: Trace, s: State, w: nat, x: Worker, takes: bool)
    requires Inv(trace, s) && w < |s.workers| && WorkerOk(trace, x)
    requires TakenBy(x) == if takes then TakenBy(s.workers[w]) + [s.gtid] else TakenBy(s.workers[w])
    requires !s.workers[w].Stopped? && !s.workers[w].Broken?
    requires (x.Stopped? || x.Broken?) <==> (takes && s.gtid >= |trace|)
    ensures Inv(trace, State(if takes then s.gtid + 1 else s.gtid, s.workers[w := x]))
  {
    var after := State(if takes then s.gtid + 1 else s.gtid, s.workers[w := x]);
    UpdateGives(s, w, x, takes);
    EndedUpdate(s.workers, w, x);
    assert Ended(after.workers) == if after.gtid > |trace| then after.gtid - |trace| else 0;
  }

  lemma UpdateGives(s: State, w: nat, x: Worker, takes: bool)
    requires EachOnce(s) && w < |s.workers|
    requires TakenBy(x) == if takes then TakenBy(s.workers[w]) + [s.gtid] else TakenBy(s.workers[w])
    ensures EachOnce(State(if takes then s.gtid + 1 else s.gtid, s.workers[w := x]))
  {
    var after := State(if takes then s.gtid + 1 else s.gtid, s.workers[w := x]);
    forall t: nat ensures Given(after.workers, t) == if t < after.gtid then 1 else 0 {
      GivenUpdate(s.workers, w, x, t);
      TimesMore(TakenBy(s.workers[w]), s.gtid, t);
    }
  }

  lemma {:induction false} StepKeepsInv(trace: Trace, s: State, e: Step)
    requires WellFormed(trace) && Inv(trace, s) && Enabled(s, e)
    ensures Inv(trace, Next(trace, s, e))
  {
    match e
    case Construct(w) =>
      assert [] + [s.gtid] == [s.gtid];
      UpdateKeepsInv(trace, s, w, Constructed(trace, s.gtid), true);
    case GetNext(w) =>
      AdvancedOk(trace, s.workers[w], s.gtid);
      AdvancedTakes(trace, s.workers[w], s.gtid);
      UpdateKeepsInv(trace, s, w, Advanced(trace, s.workers[w], s.gtid), AtEnd(trace, s.workers[w]));
  }

  // ------------------------------------------------------------------ all runs

  ghost predicate Legal(trace: Trace, s: State, es: seq<Step>)
    requires WellFormed(trace) && Inv(trace, s)
    decreases |es|
  {
    |es| == 0 || (Enabled(s, es[0]) && (StepKeepsInv(trace, s, es[0]); Legal(trace, Next(trace, s, es[0]), es[1..])))
  }

  ghost function Run(trace: Trace, s: State, es: seq<Step>): (after: State)
    requires WellFormed(trace) && Inv(trace, s) && Legal(trace, s, es)
    ensures Inv(trace, after) && |after.workers| == |s.workers|
    decreases |es|
  {
    if |es| == 0 then s else (StepKeepsInv(trace, s, es[0]); Run(trace, Next(trace, s, es[0]), es[1..]))
  }

  ghost function Begun(trace: Trace, n: nat): (s: State)
    ensures s == Start(n) && Inv(trace, s)
  {
    StartIsOk(trace, n);
    Start(n)
  }

  predicate AllStopped(ws: seq<Worker>) {
    forall w :: 0 <= w < |ws| ==> ws[w].Stopped?
  }

  /** How often a statement has been executed. */
  function Executed(log: seq<Place>, p: Place): nat {
    if |log| == 0 then 0 else Executed(log[..|log| - 1], p) + if log[|log| - 1] == p then 1 else 0
  }

  function ExecutedByAll(ws: seq<Worker>, p: Place): nat {
    if |ws| == 0 then 0
    else (if ws[0].Running? || ws[0].Stopped? then Executed(ws[0].log, p) else 0) + ExecutedByAll(ws[1..], p)
  }

  lemma {:induction false} ExecutedAppend(a: seq<Place>, b: seq<Place>, p: Place)
    ensures Executed(a + b, p) == Executed(a, p) + Executed(b, p)
    decreases |b|
  {
    if |b| == 0 {
      assert a + b == a;
    } else {
      assert (a + b)[..|a + b| - 1] == a + b[..|b| - 1];
      ExecutedAppend(a, b[..|b| - 1], p);
    }
  }

  lemma {:induction false} ExecutedInPart(tid: nat, n: nat, p: Place)
    ensures Executed(Part(tid, n), p) == if p.tid == tid && p.pos < n then 1 else 0
  {
    if n > 0 {
      ExecutedInPart(tid, n - 1, p);
      assert Part(tid, n)[..|Part(tid, n)| - 1] == Part(tid, n - 1);
    }
  }

  lemma {:induction false} ExecutedInWhole(trace: Trace, ts: seq<nat>, p: Place)
    requires InTrace(trace, ts) && p.tid < |trace| && p.pos < |trace[p.tid]|
    ensures Executed(Whole(trace, ts), p) == Times(ts, p.tid)
    decreases |ts|
  {
    if |ts| > 0 {
      var rest, last := ts[..|ts| - 1], ts[|ts| - 1];
      ExecutedInWhole(trace, rest, p);
      ExecutedAppend(Whole(trace, rest), Part(last, |trace[last]|), p);
      ExecutedInPart(last, |trace[last]|, p);
    }
  }

  lemma {:induction false} ExecutedAsGiven(trace: Trace, ws: seq<Worker>, p: Place)
    requires WorkersOk(trace, ws) && AllStopped(ws) && p.tid < |trace| && p.pos < |trace[p.tid]|
    ensures ExecutedByAll(ws, p) == Given(ws, p.tid)
  {
    if |ws| > 0 {
      assert WorkerOk(trace, ws[0]);
      ExecutedInWhole(trace, ws[0].left, p);
      TimesMore(ws[0].left, ws[0].tid, p.tid);
      ExecutedAsGiven(trace, ws[1..], p);
    }
  }

  lemma {:induction false} AllEnded(ws: seq<Worker>)
    requires AllStopped(ws)
    ensures Ended(ws) == |ws|
  {
    if |ws| > 0 {
      AllEnded(ws[1..]);
    }
  }

  /** When all workers have stopped, every statement of the trace has been executed exactly once,
      each worker has executed whole transactions in their order, and the counter stands at the
      number of transactions plus the number of workers. */
  lemma {:induction false} ExactlyOnce(trace: Trace, n: nat, es: seq<Step>, p: Place)
    requires WellFormed(trace) && n > 0 && Legal(trace, Begun(trace, n), es)
    requires AllStopped(Run(trace, Begun(trace, n), es).workers)
    requires p.tid < |trace| && p.pos < |trace[p.tid]|
    ensures var s := Run(trace, Begun(trace, n), es);
      && s.gtid == |trace| + n && ExecutedByAll(s.workers, p) == 1
      && forall w :: 0 <= w < |s.workers| ==>
           InTrace(trace, s.workers[w].left) && s.workers[w].log == Whole(trace, s.workers[w].left)
  {
    var s := Run(trace, Begun(trace, n), es);
    AllEnded(s.workers);
    ExecutedAsGiven(trace, s.workers, p);
    forall w | 0 <= w < |s.workers| ensures InTrace(trace, s.workers[w].left)
              && s.workers[w].log == Whole(trace, s.workers[w].left) {
      assert WorkerOk(trace, s.workers[w]);
    }
  }

  // ------------------------------------------------------------------ workers that come late

  predicate NoneBroken(ws: seq<Worker>) {
    forall w :: 0 <= w < |ws| ==> !ws[w].Broken?
  }

  /** Every generator is made while the trace has not run out. */
  ghost predicate InTime(trace: Trace, s: State, es: seq<Step>)
    requires WellFormed(trace) && Inv(trace, s) && Legal(trace, s, es)
    decreases |es|
  {
    |es| == 0 || ((es[0].Construct? ==> s.gtid < |trace|)
                  && (StepKeepsInv(trace, s, es[0]); InTime(trace, Next(trace, s, es[0]), es[1..])))
  }

  lemma {:induction false} BrokenStays(trace: Trace, s: State, es: seq<Step>, w: nat)
    requires WellFormed(trace) && Inv(trace, s) && Legal(trace, s, es) && w < |s.workers| && s.workers[w].Broken?
    ensures Run(trace, s, es).workers[w].Broken?
    decreases |es|
  {
    if |es| > 0 {
      StepKeepsInv(trace, s, es[0]);
      BrokenStays(trace, Next(trace, s, es[0]), es[1..], w);
    }
  }

  lemma {:induction false} BrokenExactlyWhenLate(trace: Trace, s: State, es: seq<Step>)
    requires WellFormed(trace) && Inv(trace, s) && Legal(trace, s, es) && NoneBroken(s.workers)
    ensures NoneBroken(Run(trace, s, es).workers) <==> InTime(trace, s, es)
    decreases |es|
  {
    if |es| > 0 {
      StepKeepsInv(trace, s, es[0]);
      var s1 := Next(trace, s, es[0]);
      if es[0].Construct? && s.gtid >= |trace| {
        assert s1.workers[es[0].w].Broken?;
        BrokenStays(trace, s1, es[1..], es[0].w);
      } else {
        BrokenExactlyWhenLate(trace, s1, es[1..]);
      }
    }
  }

  lemma GivenByOne(ws: seq<Worker>, tid: nat, t: nat)
    requires |ws| == 1
    ensures ws[0] == Broken(tid) ==> Given(ws, t) == if t == tid then 1 else 0
  {
    assert [tid][..0] == [] && Times([tid], t) == Times([], t) + if tid == t then 1 else 0;
    assert Given(ws, t) == Times(TakenBy(ws[0]), t) + Given(ws[1..], t);
  }

  /** A single worker is never late. */
  lemma OneIsInTime(trace: Trace, s: State)
    requires Inv(trace, s) && |s.workers| == 1 && |trace| > 0
    ensures NoneBroken(s.workers)
  {
    var tid := if s.workers[0].Broken? then s.workers[0].tid else 0;
    assert WorkerOk(trace, s.workers[0]);
    GivenByOne(s.workers, tid, tid);
    GivenByOne(s.workers, tid, 0);
  }

  /** What is left for a worker of its transaction. */
  function Remaining(trace: Trace, w: Worker): nat {
    if w.Running? && w.tid < |trace| && w.pos <= |trace[w.tid]| then |trace[w.tid]| - w.pos else 0
  }

  /** A worker can take the rest of the trace while the others do nothing. */
  lemma {:induction false} TakesAll(trace: Trace, s: State) returns (es: seq<Step>)
    requires WellFormed(trace) && Inv(trace, s) && |s.workers| > 0 && s.workers[0].Running?
    ensures Legal(trace, s, es)
    ensures var after := Run(trace, s, es);
      after.gtid > |trace| && after.workers[0].Stopped? && after.workers[1..] == s.workers[1..]
    decreases if s.gtid < |trace| then |trace| - s.gtid else 0, Remaining(trace, s.workers[0]),
              s.workers[0].Running?
  {
    assert WorkerOk(trace, s.workers[0]);
    StepKeepsInv(trace, s, GetNext(0));
    var s1 := Next(trace, s, GetNext(0));
    var more := [];
    if s1.workers[0].Running? {
      more := TakesAll(trace, s1);
    }
    RunOne(trace, s, GetNext(0), more);
    es := [GetNext(0)] + more;
  }

  /** One worker can take the whole trace before another one has made its generator. */
  lemma FirstTakesAll(trace: Trace, n: nat) returns (es: seq<Step>)
    requires WellFormed(trace) && n > 0 && |trace| > 0
    ensures Legal(trace, Begun(trace, n), es)
    ensures var after := Run(trace, Begun(trace, n), es);
      && after.gtid > |trace| && after.workers[0].Stopped?
      && forall w :: 0 < w < n ==> after.workers[w].Idle?
  {
    var s := Begun(trace, n);
    StepKeepsInv(trace, s, Construct(0));
    var s1 := Next(trace, s, Construct(0));
    es := TakesAll(trace, s1);
    RunOne(trace, s, Construct(0), es);
    var after := Run(trace, s1, es);
    forall w | 0 < w < n ensures after.workers[w].Idle? {
      assert after.workers[w] == after.workers[1..][w - 1] == s1.workers[1..][w - 1];
    }
    es := [Construct(0)] + es;
  }

  lemma RunOne(trace: Trace, s: State, e: Step, more: seq<Step>)
    requires WellFormed(trace) && Inv(trace, s) && Enabled(s, e) && Inv(trace, Next(trace, s, e))
    requires Legal(trace, Next(trace, s, e), more)
    ensures Legal(trace, s, [e] + more) && Run(trace, s, [e] + more) == Run(trace, Next(trace, s, e), more)
  {
    assert ([e] + more)[1..] == more && ([e] + more)[0] == e;
  }

  lemma {:induction false} RunMore(trace: Trace, s: State, es: seq<Step>, e: Step)
    requires WellFormed(trace) && Inv(trace, s) && Legal(trace, s, es) && Enabled(Run(trace, s, es), e)
    ensures Legal(trace, s, es + [e]) && Run(trace, s, es + [e]) == Next(trace, Run(trace, s, es), e)
    decreases |es|
  {
    if |es| == 0 {
      assert es + [e] == [e] && [e][1..] == [];
    } else {
      StepKeepsInv(trace, s, es[0]);
      RunMore(trace, Next(trace, s, es[0]), es[1..], e);
      assert (es + [e])[1..] == es[1..] + [e] && (es + [e])[0] == es[0];
    }
  }

  /** With two workers or more there is a run in which the second one comes too late. */
  lemma SecondIsLate(trace: Trace, n: nat) returns (es: seq<Step>)
    requires WellFormed(trace) && n > 1 && |trace| > 0
    ensures Legal(trace, Begun(trace, n), es) && !NoneBroken(Run(trace, Begun(trace, n), es).workers)
  {
    es := FirstTakesAll(trace, n);
    RunMore(trace, Begun(trace, n), es, Construct(1));
    es := es + [Construct(1)];
    assert Run(trace, Begun(trace, n), es).workers[1].Broken?;
  }

  /** That every worker gets a transaction to begin with is certain for a single worker only, and
      a trace that is not empty; having as many transactions as workers is not enough. */
  lemma InTimeExactlyWhen(trace: Trace, n: nat)
    requires WellFormed(trace) && n > 0
    ensures (forall es :: Legal(trace, Begun(trace, n), es) ==> NoneBroken(Run(trace, Begun(trace, n), es).workers))
            <==> n == 1 && |trace| > 0
  {
    if n == 1 && |trace| > 0 {
      forall es | Legal(trace, Begun(trace, n), es) ensures NoneBroken(Run(trace, Begun(trace, n), es).workers) {
        OneIsInTime(trace, Run(trace, Begun(trace, n), es));
      }
    } else if |trace| > 0 {
      var es := SecondIsLate(trace, n);
    } else {
      var es := [Construct(0)];
      RunMore(trace, Begun(trace, n), [], Construct(0));
      assert [] + es == es;
      assert Run(trace, Begun(trace, n), es).workers[0].Broken?;
    }
  }
}
