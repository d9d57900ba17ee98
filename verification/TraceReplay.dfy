/** A worker of the SQL trace replayer, as written: the statement generator with its iterator, and
    the loop that executes the statements and rolls back what a transaction leaves open. */
module TraceReplay {
  import opened TraceDispenser

  /** gtid, with its mutex; the other workers advance it too. */
  class Counter {
    var gtid: nat

    constructor ()
      ensures gtid == 0
    {
      gtid := 0;
    }

    /** What happens before this worker gets the mutex. */
    method Others()
      modifies this
      ensures gtid >= old(gtid)
    {
      var later :| later >= gtid;
      gtid := later;
    }

    method Take() returns (tid: nat)
      modifies this
      ensures tid == old(gtid) && gtid == tid + 1
    {
      tid := gtid;
      gtid := gtid + 1;
    }
  }

  class SQLGenerator {
    const trace: Trace
    const counter: Counter
    var tid: nat
    var it: nat
    var ntid: bool
    /** This worker, in TraceDispenser. */
    ghost var w: Worker

    ghost predicate Valid()
      reads this, counter
    {
      WellFormed(trace) && WorkerOk(trace, w) && w.Running? && tid == w.tid && it == w.pos && tid < counter.gtid
    }

    constructor (trace: Trace, counter: Counter)
      requires WellFormed(trace) && counter.gtid < |trace|
      modifies counter
      ensures Valid() && this.trace == trace && this.counter == counter && !ntid
      ensures w == Constructed(trace, old(counter.gtid))
    {
      this.trace, this.counter, ntid := trace, counter, false;
      var t := counter.Take();
      tid, it := t, 0;
      w := Constructed(trace, t);
    }

    /** getnext; `stop` stands for a sleep time of 0. */
    method GetNext() returns (stop: bool, q: Stm)
      requires Valid()
      modifies this, counter
      ensures counter.gtid >= old(counter.gtid)
      ensures exists next: nat :: w == Advanced(trace, old(w), next)
      ensures ntid == AtEnd(trace, old(w)) && stop == w.Stopped?
      ensures stop ==> WorkerOk(trace, w) && w.log == old(w.log)
      ensures !stop ==> Valid() && w.log == old(w.log) + [Place(tid, it - 1)] && it > 0 && q == trace[tid][it - 1]
      ensures !stop ==> (ntid <==> it == 1 && old(it) != 0)
      ensures !stop ==> if ntid then tid > old(tid) else tid == old(tid) && it == old(it) + 1
    {
      stop, q := false, Begin;
      if it == |trace[tid]| {
        counter.Others();
        var t := counter.Take();
        AdvancedOk(trace, w, t);
        w := Advanced(trace, w, t);
        tid, ntid := t, true;
        if tid >= |trace| {
          stop := true;
          return;
        }
        it := 0;
      } else {
        AdvancedOk(trace, w, tid);
        w := Advanced(trace, w, tid);
        ntid := false;
      }
      q := trace[tid][it];
      it := it + 1;
    }
  }

  /** What a worker does to the database. */
  datatype Op = Execute(p: Place, stm: Stm) | Undo

  /** Statements that leave something to roll back, as the worker has it in its flag. */
  predicate Leaves(stm: Stm) {
    stm.Select? || stm.Write? || stm.Temp?
  }

  predicate Pending(ops: seq<Op>) {
    |ops| > 0 && ops[|ops| - 1].Execute? && Leaves(ops[|ops| - 1].stm)
  }

  /** Statements after which the database has no transaction open; DROP TABLE commits. */
  predicate EndsTransaction(stm: Stm) {
    stm.Commit? || stm.Rollback? || (stm.Temp? && "drop table" <= stm.q)
  }

  /** Whether the database has a transaction open, which a BEGIN also starts. */
  predicate Open(ops: seq<Op>) {
    |ops| > 0 && ops[|ops| - 1].Execute? && !EndsTransaction(ops[|ops| - 1].stm)
  }

  /** What is pending is rolled back. */
  function Settled(ops: seq<Op>): seq<Op> {
    if Pending(ops) then ops + [Undo] else ops
  }

  /** The first n statements of a transaction. */
  function Executes(trace: Trace, tid: nat, n: nat): seq<Op>
    requires tid < |trace| && n <= |trace[tid]|
  {
    if n == 0 then [] else Executes(trace, tid, n - 1) + [Execute(Place(tid, n - 1), trace[tid][n - 1])]
  }

  /** The operations of a worker that takes these transactions, up to the last statement, and with
      what comes after it. */
  function UpToLast(trace: Trace, ts: seq<nat>): seq<Op>
    requires InTrace(trace, ts)
    decreases |ts|, 0
  {
    if |ts| == 0 then []
    else Operations(trace, ts[..|ts| - 1]) + Executes(trace, ts[|ts| - 1], |trace[ts[|ts| - 1]]|)
  }

  function Operations(trace: Trace, ts: seq<nat>): seq<Op>
    requires InTrace(trace, ts)
    decreases |ts|, 1
  {
    Settled(UpToLast(trace, ts))
  }

  /** The statements of the trace among the operations. */
  function Statements(ops: seq<Op>): seq<Place> {
    if |ops| == 0 then []
    else Statements(ops[..|ops| - 1]) + if ops[|ops| - 1].Execute? then [ops[|ops| - 1].p] else []
  }

  lemma StatementsMore(ops: seq<Op>, op: Op)
    ensures Statements(ops + [op]) == Statements(ops) + if op.Execute? then [op.p] else []
  {
    assert (ops + [op])[..|ops|] == ops;
  }

  lemma {:induction false} StatementsOfPart(trace: Trace, ops: seq<Op>, tid: nat, n: nat)
    requires tid < |trace| && n <= |trace[tid]|
    ensures Statements(ops + Executes(trace, tid, n)) == Statements(ops) + Part(tid, n)
  {
    if n == 0 {
      assert ops + Executes(trace, tid, 0) == ops;
    } else {
      StatementsOfPart(trace, ops, tid, n - 1);
      var e := Execute(Place(tid, n - 1), trace[tid][n - 1]);
      assert ops + Executes(trace, tid, n) == ops + Executes(trace, tid, n - 1) + [e];
      StatementsMore(ops + Executes(trace, tid, n - 1), e);
    }
  }

  /** The worker executes its transactions, each whole, in their order. */
  lemma {:induction false} OperationsAreWhole(trace: Trace, ts: seq<nat>)
    requires InTrace(trace, ts)
    ensures Statements(Operations(trace, ts)) == Whole(trace, ts)
    decreases |ts|
  {
    if |ts| > 0 {
      var rest, t := ts[..|ts| - 1], ts[|ts| - 1];
      OperationsAreWhole(trace, rest);
      StatementsOfPart(trace, Operations(trace, rest), t, |trace[t]|);
    }
    StatementsMore(UpToLast(trace, ts), Undo);
  }

  // ------------------------------------------------------------------ transactions kept apart

  predicate IsFirst(op: Op) {
    op.Execute? && op.p.pos == 0
  }

  /** Every transaction of the trace starts when the database has none open. */
  predicate StartApart(ops: seq<Op>) {
    forall i :: 0 <= i < |ops| && IsFirst(ops[i]) ==> !Open(ops[..i])
  }

  /** And none is left open. */
  predicate Separate(ops: seq<Op>) {
    StartApart(ops) && !Open(ops)
  }

  predicate EndsWithBegin(trace: Trace, t: nat)
    requires t < |trace|
  {
    |trace[t]| > 0 && trace[t][|trace[t]| - 1].Begin?
  }

  lemma StartApartMore(ops: seq<Op>, op: Op)
    ensures StartApart(ops + [op]) <==> StartApart(ops) && (IsFirst(op) ==> !Open(ops))
  {
    var more := ops + [op];
    assert more[|ops|] == op && more[..|ops|] == ops;
    forall i | 0 <= i < |ops| ensures more[i] == ops[i] && more[..i] == ops[..i] {
    }
  }

  /** A transaction's statements add nothing but its start. */
  lemma {:induction false} StartApartPart(trace: Trace, ops: seq<Op>, tid: nat, n: nat)
    requires tid < |trace| && 0 < n <= |trace[tid]|
    ensures StartApart(ops + Executes(trace, tid, n)) <==> Separate(ops)
  {
    var e := Execute(Place(tid, n - 1), trace[tid][n - 1]);
    var before := ops + Executes(trace, tid, n - 1);
    assert ops + Executes(trace, tid, n) == before + [e];
    StartApartMore(before, e);
    if n == 1 {
      assert before == ops;
    } else {
      StartApartPart(trace, ops, tid, n - 1);
    }
  }

  /** One more transaction is kept apart from those before it exactly if these are from each other
      and it does not end with BEGIN: the worker's flag does not say that the database has a
      transaction open then. */
  lemma OneMoreApart(trace: Trace, ops: seq<Op>, tid: nat)
    requires tid < |trace| && |trace[tid]| > 0
    ensures Separate(Settled(ops + Executes(trace, tid, |trace[tid]|))) <==>
            Separate(ops) && !EndsWithBegin(trace, tid)
  {
    var n := |trace[tid]|;
    var part := ops + Executes(trace, tid, n);
    StartApartPart(trace, ops, tid, n);
    assert part[|part| - 1] == Execute(Place(tid, n - 1), trace[tid][n - 1]);
    StartApartMore(part, Undo);
  }

  predicate NoneEndsWithBegin(trace: Trace, ts: seq<nat>)
    requires InTrace(trace, ts)
  {
    forall i :: 0 <= i < |ts| ==> !EndsWithBegin(trace, ts[i])
  }

  lemma NoneButTheLast(trace: Trace, ts: seq<nat>)
    requires InTrace(trace, ts) && |ts| > 0
    ensures NoneEndsWithBegin(trace, ts) <==>
            NoneEndsWithBegin(trace, ts[..|ts| - 1]) && !EndsWithBegin(trace, ts[|ts| - 1])
  {
    forall i | 0 <= i < |ts| - 1 ensures ts[..|ts| - 1][i] == ts[i] {
    }
  }

  lemma {:induction false} ApartExactlyWhen(trace: Trace, ts: seq<nat>)
    requires WellFormed(trace) && InTrace(trace, ts)
    ensures Separate(Operations(trace, ts)) <==> NoneEndsWithBegin(trace, ts)
    decreases |ts|
  {
    if |ts| > 0 {
      var rest, t := ts[..|ts| - 1], ts[|ts| - 1];
      ApartExactlyWhen(trace, rest);
      OneMoreApart(trace, Operations(trace, rest), t);
      NoneButTheLast(trace, ts);
    }
  }

  lemma {:induction false} TimesIn(s: seq<nat>, t: nat)
    requires Times(s, t) > 0
    ensures t in s
  {
    if s[|s| - 1] != t {
      TimesIn(s[..|s| - 1], t);
    }
  }

  /** A failing run: the first worker takes the whole trace, in which transaction t ends with BEGIN. */
  lemma BeginStaysOpen(trace: Trace, n: nat, t: nat) returns (es: seq<Step>)
    requires WellFormed(trace) && n > 0 && t < |trace| && EndsWithBegin(trace, t)
    ensures Legal(trace, Begun(trace, n), es)
    ensures var w := Run(trace, Begun(trace, n), es).workers[0];
      w.Stopped? && InTrace(trace, w.left) && !Separate(Operations(trace, w.left))
  {
    es := FirstTakesAll(trace, n);
    var ws := Run(trace, Begun(trace, n), es).workers;
    assert WorkerOk(trace, ws[0]);
    NothingGiven(ws[1..], t);
    assert Given(ws, t) == Times(TakenBy(ws[0]), t) + Given(ws[1..], t);
    TimesMore(ws[0].left, ws[0].tid, t);
    TimesIn(ws[0].left, t);
    ApartExactlyWhen(trace, ws[0].left);
  }

  /** All workers keep the transactions of a trace apart in the database, in all runs, exactly when
      no transaction of the trace ends with BEGIN. */
  lemma SeparateExactlyWhen(trace: Trace, n: nat)
    requires WellFormed(trace) && n > 0
    ensures (forall es, w: nat :: Legal(trace, Begun(trace, n), es) && w < n ==>
               var x := Run(trace, Begun(trace, n), es).workers[w];
               x.Stopped? ==> InTrace(trace, x.left) && Separate(Operations(trace, x.left)))
            <==> forall t: nat :: t < |trace| ==> !EndsWithBegin(trace, t)
  {
    if t: nat :| t < |trace| && EndsWithBegin(trace, t) {
      var es := BeginStaysOpen(trace, n, t);
    } else {
      forall es, w: nat | Legal(trace, Begun(trace, n), es) && w < n
                          && Run(trace, Begun(trace, n), es).workers[w].Stopped?
        ensures var left := Run(trace, Begun(trace, n), es).workers[w].left;
          InTrace(trace, left) && Separate(Operations(trace, left))
      {
        var x := Run(trace, Begun(trace, n), es).workers[w];
        assert WorkerOk(trace, x);
        ApartExactlyWhen(trace, x.left);
      }
    }
  }

  // ------------------------------------------------------------------ the worker's loop

  /** The operations of a worker that has these transactions behind it and has executed n statements
      of another one. What is pending is rolled back with the first of them. */
  function Sofar(trace: Trace, left: seq<nat>, tid: nat, n: nat): seq<Op>
    requires InTrace(trace, left) && tid < |trace| && n <= |trace[tid]|
  {
    if n == 0 then UpToLast(trace, left) else Operations(trace, left) + Executes(trace, tid, n)
  }

  lemma SofarMore(trace: Trace, left: seq<nat>, tid: nat, n: nat)
    requires InTrace(trace, left) && tid < |trace| && n < |trace[tid]|
    ensures Sofar(trace, left, tid, n + 1)
         == (if n == 0 then Settled(Sofar(trace, left, tid, n)) else Sofar(trace, left, tid, n))
            + [Execute(Place(tid, n), trace[tid][n])]
  {
    var e := Execute(Place(tid, n), trace[tid][n]);
    assert Executes(trace, tid, n + 1) == Executes(trace, tid, n) + [e];
    var ops := Operations(trace, left);
    assert ops + (Executes(trace, tid, n) + [e]) == ops + Executes(trace, tid, n) + [e];
    if n == 0 {
      assert ops + [] + [e] == ops + [e];
    }
  }

  lemma SofarAll(trace: Trace, left: seq<nat>, tid: nat)
    requires InTrace(trace, left) && tid < |trace| && |trace[tid]| > 0
    ensures InTrace(trace, left + [tid]) && UpToLast(trace, left + [tid]) == Sofar(trace, left, tid, |trace[tid]|)
  {
    var more := left + [tid];
    assert more[..|more| - 1] == left;
  }

  /** A worker whose generator has given it a statement that it has still to execute, or has stopped. */
  predicate Ready(trace: Trace, w: Worker, ops: seq<Op>) {
    match w
    case Running(left, tid, pos, _) => WorkerOk(trace, w) && pos > 0 && ops == Sofar(trace, left, tid, pos - 1)
    case Stopped(left, _, _) => WorkerOk(trace, w) && left != [] && ops == UpToLast(trace, left)
    case _ => false
  }

  lemma ReadyAgain(trace: Trace, w: Worker, ops: seq<Op>, next: nat)
    requires WellFormed(trace) && WorkerOk(trace, w) && w.Running? && ops == Sofar(trace, w.left, w.tid, w.pos)
    ensures Ready(trace, Advanced(trace, w, next), ops) && TakenBy(Advanced(trace, w, next))[0] == TakenBy(w)[0]
  {
    AdvancedOk(trace, w, next);
    if AtEnd(trace, w) {
      SofarAll(trace, w.left, w.tid);
    }
  }

  /** Executes a statement; what another transaction has left pending is rolled back before. */
  method Perform(ghost trace: Trace, ghost left: seq<nat>, ops: seq<Op>, pending: bool, ntid: bool, p: Place, q: Stm)
    returns (more: seq<Op>, nowPending: bool)
    requires InTrace(trace, left) && p.tid < |trace| && p.pos < |trace[p.tid]| && q == trace[p.tid][p.pos]
    requires ops == Sofar(trace, left, p.tid, p.pos) && pending == Pending(ops)
    requires if ntid then p.pos == 0 else p.pos > 0 || ops == []
    ensures more == Sofar(trace, left, p.tid, p.pos + 1) && nowPending == Pending(more)
  {
    more := ops;
    if pending && ntid {
      more := more + [Undo];
    }
    SofarMore(trace, left, p.tid, p.pos);
    more := more + [Execute(p, q)];
    match q {
      case Begin => nowPending := false;
      case Commit => nowPending := false;
      case Rollback => nowPending := false;
      case Select(_) => nowPending := true;
      case Write(_) => nowPending := true;
      case Temp(_) => nowPending := true;
    }
  }

  ghost predicate AtStatement(gen: SQLGenerator, ops: seq<Op>, q: Stm)
    reads gen, gen.counter
  {
    && gen.Valid() && gen.it > 0 && q == gen.trace[gen.tid][gen.it - 1]
    && if gen.ntid then gen.it == 1 else gen.it > 1 || ops == []
  }

  /** One turn of the loop. */
  method Turn(gen: SQLGenerator, ops: seq<Op>, pending: bool, q: Stm)
    returns (more: seq<Op>, nowPending: bool, stop: bool, next: Stm)
    requires AtStatement(gen, ops, q) && Ready(gen.trace, gen.w, ops) && pending == Pending(ops)
    modifies gen, gen.counter
    ensures stop == gen.w.Stopped? && Ready(gen.trace, gen.w, more) && nowPending == Pending(more)
    ensures TakenBy(gen.w)[0] == old(TakenBy(gen.w)[0]) && (!stop ==> AtStatement(gen, more, next))
    ensures !stop ==> gen.tid > old(gen.tid) || (gen.tid == old(gen.tid) && gen.it > old(gen.it))
  {
    ghost var before := gen.w;
    more, nowPending := Perform(gen.trace, before.left, ops, pending, gen.ntid, Place(gen.tid, gen.it - 1), q);
    stop, next := gen.GetNext();
    ghost var t: nat :| gen.w == Advanced(gen.trace, before, t);
    ReadyAgain(gen.trace, before, more, t);
  }

  /** The loop of a worker, without --repeat and not stopped early, from where its generator has
      been made: it executes whole transactions, first the one that its generator holds, and keeps
      them apart in the database exactly when none of them ends with BEGIN. */
  method Replay(gen: SQLGenerator) returns (ops: seq<Op>)
    requires gen.Valid() && gen.w.left == [] && gen.w.pos == 0
    modifies gen, gen.counter
    ensures gen.w.Stopped? && gen.w.left != [] && gen.w.left[0] == old(gen.tid) && InTrace(gen.trace, gen.w.left)
    ensures ops == Operations(gen.trace, gen.w.left) && Statements(ops) == Whole(gen.trace, gen.w.left)
    ensures Separate(ops) <==> NoneEndsWithBegin(gen.trace, gen.w.left)
  {
    ops := [];
    var pending := false;
    ghost var before := gen.w;
    assert gen.w.log == [] by { assert Part(gen.tid, 0) == []; }
    var stop, q := gen.GetNext();
    ghost var next: nat :| gen.w == Advanced(gen.trace, before, next);
    ReadyAgain(gen.trace, before, ops, next);
    while !stop
      invariant stop == gen.w.Stopped? && Ready(gen.trace, gen.w, ops) && TakenBy(gen.w)[0] == old(gen.tid)
      invariant (!stop ==> AtStatement(gen, ops, q)) && pending == Pending(ops)
      decreases !stop, |gen.trace| - gen.tid, if stop then 0 else |gen.trace[gen.tid]| - gen.it
    {
      ops, pending, stop, q := Turn(gen, ops, pending, q);
    }
    if pending {
      ops := ops + [Undo];
    }
    OperationsAreWhole(gen.trace, gen.w.left);
    ApartExactlyWhen(gen.trace, gen.w.left);
  }
}
