/** A client's connection from its acceptance on. Before anything is forwarded the clone proxy
    connects to the server and then, in asynchronous mode, to the duplicate, with a call that
    blocks; it makes the pipe and forks its four processes one by one. The plain proxy connects to
    the server and forks two. The clone proxy is proved to serve its clients as the plain proxy
    would exactly when the duplicate accepts the connection and the pipe can be made. */
module HandleClient {
  import opened CloneProxy

  /** What the duplicate does with a connection: a silent one neither accepts nor refuses it. */
  datatype Duplicate = Accepts | Refuses | Silent

  datatype World = World(duplicate: Duplicate, pipeWorks: bool, capacity: nat, slack: nat)

  /** Where handle_client is. When a connection cannot be set up it returns, which ends it. */
  datatype Parent =
    | ToServer
    | ToDuplicate
    | ToPipe
    | Forking(forked: nat)
    | NoServer     // the connect to the server has failed
    | GaveUp       // the server is connected, but not the duplicate, or there is no pipe

  /** What a client and the server see. `Dropped`: both connections are closed, by nobody's wish. */
  datatype Visible = Reached(ok: bool) | Served(event: Event) | Dropped

  // ------------------------------------------------------------------ the plain proxy

  datatype PlainClient = PlainClient(parent: Parent, flows: Plain)

  datatype PlainStep = PlainReach(ok: bool) | PlainFork | PlainServe(event: Event)

  const PLAIN_START := PlainClient(ToServer, Plain(IDLE, IDLE))

  function ProcessesFor(e: Event): nat {
    if e.Request? then 1 else 2
  }

  predicate PlainEnabled(c: PlainClient, s: PlainStep) {
    match s
    case PlainReach(_) => c.parent.ToServer?
    case PlainFork => c.parent.Forking? && c.parent.forked < 2
    case PlainServe(e) => c.parent.Forking? && ProcessesFor(e) <= c.parent.forked && PlainCan(c.flows, e)
  }

  function PlainNext(c: PlainClient, s: PlainStep): PlainClient
    requires PlainEnabled(c, s)
  {
    match s
    case PlainReach(ok) => c.(parent := if ok then Forking(0) else NoServer)
    case PlainFork => c.(parent := Forking(c.parent.forked + 1))
    case PlainServe(e) => c.(flows := PlainDo(c.flows, e))
  }

  predicate PlainLegalFrom(c: PlainClient, ss: seq<PlainStep>)
    decreases |ss|
  {
    |ss| == 0 || (PlainEnabled(c, ss[0]) && PlainLegalFrom(PlainNext(c, ss[0]), ss[1..]))
  }

  function PlainRunFrom(c: PlainClient, ss: seq<PlainStep>): PlainClient
    requires PlainLegalFrom(c, ss)
    decreases |ss|
  {
    if |ss| == 0 then c else PlainRunFrom(PlainNext(c, ss[0]), ss[1..])
  }

  function PlainSeen(s: PlainStep): seq<Visible> {
    match s
    case PlainReach(ok) => [Reached(ok)]
    case PlainFork => []
    case PlainServe(e) => [Served(e)]
  }

  function PlainVisible(ss: seq<PlainStep>): seq<Visible> {
    if |ss| == 0 then [] else PlainSeen(ss[0]) + PlainVisible(ss[1..])
  }

  /** What clients and servers of the plain proxy can come to see. */
  ghost predicate PlainTrace(vs: seq<Visible>) {
    exists ss :: PlainLegalFrom(PLAIN_START, ss) && PlainVisible(ss) == vs
  }

  // ------------------------------------------------------------------ the clone proxy

  /** The ends of the pipe that belong to a process still to be forked are the parent's. */
  datatype Client = Client(parent: Parent, x: Proxy)

  datatype SetUp =
    | Reach(ok: bool)
    | ReachDuplicate(ok: bool)
    | MakePipe(ok: bool)
    | Fork
    | Work(step: Step)

  function ClientStart(w: World): Client {
    Client(ToServer, Start(w.capacity, w.slack))
  }

  /** In the order of their forks. */
  function Number(p: Process): nat {
    match p
    case T1 => 1
    case T2 => 2
    case T3 => 3
    case T4 => 4
  }

  predicate ClientEnabled(w: World, c: Client, s: SetUp) {
    match s
    case Reach(_) => c.parent.ToServer?
    case ReachDuplicate(ok) => c.parent.ToDuplicate? && if ok then w.duplicate.Accepts? else w.duplicate.Refuses?
    case MakePipe(ok) => c.parent.ToPipe? && ok == w.pipeWorks
    case Fork => c.parent.Forking? && c.parent.forked < 4
    case Work(t) => c.parent.Forking? && Number(ProcessOf(t)) <= c.parent.forked && Enabled(c.x, t)
  }

  function ClientNext(w: World, c: Client, s: SetUp): Client
    requires ClientEnabled(w, c, s)
  {
    match s
    case Reach(ok) => c.(parent := if ok then ToDuplicate else NoServer)
    case ReachDuplicate(ok) => c.(parent := if ok then ToPipe else GaveUp)
    case MakePipe(ok) => c.(parent := if ok then Forking(0) else GaveUp)
    case Fork => c.(parent := Forking(c.parent.forked + 1))
    case Work(t) => c.(x := Next(c.x, t))
  }

  predicate LegalFrom(w: World, c: Client, ss: seq<SetUp>)
    decreases |ss|
  {
    |ss| == 0 || (ClientEnabled(w, c, ss[0]) && LegalFrom(w, ClientNext(w, c, ss[0]), ss[1..]))
  }

  function RunFrom(w: World, c: Client, ss: seq<SetUp>): Client
    requires LegalFrom(w, c, ss)
    decreases |ss|
  {
    if |ss| == 0 then c else RunFrom(w, ClientNext(w, c, ss[0]), ss[1..])
  }

  function SeenOf(s: SetUp): seq<Visible> {
    match s
    case Reach(ok) => [Reached(ok)]
    case ReachDuplicate(ok) => if ok then [] else [Dropped]
    case MakePipe(ok) => if ok then [] else [Dropped]
    case Fork => []
    case Work(t) => if t.Produce? then [Served(t.event)] else []
  }

  function VisibleOf(ss: seq<SetUp>): seq<Visible> {
    if |ss| == 0 then [] else SeenOf(ss[0]) + VisibleOf(ss[1..])
  }

  /** What clients and servers of the clone proxy can come to see. */
  ghost predicate CloneTrace(w: World, vs: seq<Visible>) {
    exists ss :: LegalFrom(w, ClientStart(w), ss) && VisibleOf(ss) == vs
  }

  // ------------------------------------------------------------------ the four processes

  /** The steps of the four processes. */
  function Works(ss: seq<SetUp>): seq<Step> {
    if |ss| == 0 then [] else (if ss[0].Work? then [ss[0].step] else []) + Works(ss[1..])
  }

  /** Whatever happens to a client, its four processes do what they can do from the start of
      CloneProxy: what is proved there holds here. */
  lemma {:induction false} ProcessesRunAsInCloneProxy(w: World, c: Client, ss: seq<SetUp>)
    requires LegalFrom(w, c, ss)
    ensures Legal(c.x, Works(ss)) && RunFrom(w, c, ss).x == Run(c.x, Works(ss))
    decreases |ss|
  {
    if |ss| > 0 {
      ProcessesRunAsInCloneProxy(w, ClientNext(w, c, ss[0]), ss[1..]);
      if ss[0].Work? {
        assert Works(ss)[1..] == Works(ss[1..]);
      } else {
        assert Works(ss) == Works(ss[1..]);
      }
    }
  }

  function Forks(ss: seq<SetUp>): nat {
    if |ss| == 0 then 0 else (if ss[0].Fork? then 1 else 0) + Forks(ss[1..])
  }

  function Forked(c: Client): nat {
    if c.parent.Forking? then c.parent.forked else 0
  }

  lemma {:induction false} ForksAreCounted(w: World, c: Client, ss: seq<SetUp>)
    requires LegalFrom(w, c, ss) && Forked(c) <= 4
    ensures Forked(RunFrom(w, c, ss)) == Forked(c) + Forks(ss) <= 4
    decreases |ss|
  {
    if |ss| > 0 {
      ForksAreCounted(w, ClientNext(w, c, ss[0]), ss[1..]);
    }
  }

  const FORK_ORDER := [T1, T2, T3, T4]

  /** And they can do it as soon as they have been forked, whoever else has not been. */
  lemma ProcessesRunOnceForked(w: World, ss: seq<SetUp>, t: Step)
    requires LegalFrom(w, ClientStart(w), ss)
    ensures Forks(ss) <= 4
    ensures ClientEnabled(w, RunFrom(w, ClientStart(w), ss), Work(t)) <==>
            ProcessOf(t) in FORK_ORDER[..Forks(ss)] && Enabled(RunFrom(w, ClientStart(w), ss).x, t)
  {
    ForksAreCounted(w, ClientStart(w), ss);
    var n := Forks(ss);
    assert forall i :: 0 <= i < n ==> FORK_ORDER[..n][i] == FORK_ORDER[i];
    var p := ProcessOf(t);
    if Number(p) <= n {
      assert FORK_ORDER[..n][Number(p) - 1] == p;
    }
  }

  predicate ClientInv(c: Client) {
    Inv(c.x) && (c.parent.Forking? ==> c.parent.forked <= 4)
  }

  lemma ClientStepKeepsInv(w: World, c: Client, s: SetUp)
    requires ClientInv(c) && ClientEnabled(w, c, s)
    ensures ClientInv(ClientNext(w, c, s))
  {
    if s.Work? {
      StepKeepsInv(c.x, s.step);
    }
  }

  lemma {:induction false} ClientRunKeepsInv(w: World, c: Client, ss: seq<SetUp>)
    requires ClientInv(c) && LegalFrom(w, c, ss)
    ensures ClientInv(RunFrom(w, c, ss))
    decreases |ss|
  {
    if |ss| > 0 {
      ClientStepKeepsInv(w, c, ss[0]);
      ClientRunKeepsInv(w, ClientNext(w, c, ss[0]), ss[1..]);
    }
  }

  // ------------------------------------------------------------------ from clone to plain

  /** Where the plain proxy's parent is when the clone proxy's is at p. */
  function PlainParent(p: Parent): Parent {
    match p
    case ToDuplicate => Forking(0)
    case ToPipe => Forking(0)
    case Forking(n) => Forking(if n < 2 then n else 2)
    case _ => p
  }

  function PlainClientOf(c: Client): PlainClient {
    PlainClient(PlainParent(c.parent), AsPlain(c.x))
  }

  lemma StartIsPlainStart(w: World)
    ensures ClientInv(ClientStart(w)) && PlainClientOf(ClientStart(w)) == PLAIN_START
  {
  }

  /** What the plain proxy does when the clone proxy at p takes a step. */
  function PlainOne(p: Parent, s: SetUp): seq<PlainStep> {
    match s
    case Reach(ok) => [PlainReach(ok)]
    case Fork => if p.Forking? && p.forked < 2 then [PlainFork] else []
    case Work(t) => if t.Produce? then [PlainServe(t.event)] else []
    case _ => []
  }

  function PlainSteps(w: World, c: Client, ss: seq<SetUp>): seq<PlainStep>
    requires LegalFrom(w, c, ss)
    decreases |ss|
  {
    if |ss| == 0 then [] else PlainOne(c.parent, ss[0]) + PlainSteps(w, ClientNext(w, c, ss[0]), ss[1..])
  }

  lemma OneIsPlain(w: World, c: Client, s: SetUp)
    requires ClientInv(c) && ClientEnabled(w, c, s) && !ClientNext(w, c, s).parent.GaveUp?
    ensures var ps, before, after := PlainOne(c.parent, s), PlainClientOf(c), PlainClientOf(ClientNext(w, c, s));
      if ps == [] then after == before && SeenOf(s) == []
      else PlainEnabled(before, ps[0]) && after == PlainNext(before, ps[0]) && SeenOf(s) == PlainSeen(ps[0])
  {
    if s.Work? {
      StepIsPlain(c.x, s.step);
    }
  }

  lemma GaveUpIsFinal(w: World, c: Client, ss: seq<SetUp>)
    requires LegalFrom(w, c, ss) && c.parent.GaveUp?
    ensures ss == []
  {
  }

  /** Unless the clone proxy has given up, what it has done to client and server the plain proxy
      could have done. */
  lemma {:induction false} ClientsSeeThePlainProxy(w: World, c: Client, ss: seq<SetUp>)
    requires ClientInv(c) && LegalFrom(w, c, ss) && !RunFrom(w, c, ss).parent.GaveUp?
    ensures PlainLegalFrom(PlainClientOf(c), PlainSteps(w, c, ss))
    ensures PlainRunFrom(PlainClientOf(c), PlainSteps(w, c, ss)) == PlainClientOf(RunFrom(w, c, ss))
    ensures PlainVisible(PlainSteps(w, c, ss)) == VisibleOf(ss)
    decreases |ss|
  {
    if |ss| > 0 {
      var c1 := ClientNext(w, c, ss[0]);
      if c1.parent.GaveUp? {
        GaveUpIsFinal(w, c1, ss[1..]);
      } else {
        ClientStepKeepsInv(w, c, ss[0]);
        OneIsPlain(w, c, ss[0]);
        ClientsSeeThePlainProxy(w, c1, ss[1..]);
        var first, rest := PlainOne(c.parent, ss[0]), PlainSteps(w, c1, ss[1..]);
        if first == [] {
          assert first + rest == rest;
        } else {
          assert (first + rest)[1..] == rest;
        }
      }
    }
  }

  // ------------------------------------------------------------------ from plain to clone

  /** The steps of the clone proxy that come to one step of the plain proxy. Before the first fork
      it completes its own set-up, and before T1 takes its next step it offers its last chunk to
      the pipe. The duplicate accepts the connection, and that is all it has to do. */
  function LiftSetUp(c: Client, s: PlainStep): seq<SetUp> {
    match s
    case PlainReach(ok) => [Reach(ok)]
    case PlainFork =>
      if c.parent.ToDuplicate? then [ReachDuplicate(true), MakePipe(true), Fork]
      else if c.parent.ToPipe? then [MakePipe(true), Fork]
      else [Fork]
    case PlainServe(e) =>
      if e.Request? && c.x.request.at.AtWrite? then [Work(Offer(c.x)), Work(Produce(e))] else [Work(Produce(e))]
  }

  /** T1 offers its chunk to the pipe, which takes it if it can. */
  function Offer(x: Proxy): Step {
    Write(x.request.at.AtWrite? && Takes(x, |x.request.at.chunk|, true))
  }

  predicate Favourable(w: World) {
    w.duplicate.Accepts? && w.pipeWorks
  }

  /** The clone proxy can do ss, which looks like vs, and then corresponds to p. */
  predicate Does(w: World, c: Client, ss: seq<SetUp>, vs: seq<Visible>, p: PlainClient) {
    && LegalFrom(w, c, ss) && VisibleOf(ss) == vs
    && var after := RunFrom(w, c, ss);
       ClientInv(after) && PlainClientOf(after) == p && after.x.reader == c.x.reader && after.x.copied == c.x.copied
  }

  lemma OneSetUp(w: World, c: Client, s: SetUp)
    requires ClientInv(c) && ClientEnabled(w, c, s) && (s.Work? ==> s.step.Produce? || s.step.Write?)
    ensures Does(w, c, [s], SeenOf(s), PlainClientOf(ClientNext(w, c, s))) && RunFrom(w, c, [s]) == ClientNext(w, c, s)
  {
    ClientStepKeepsInv(w, c, s);
    assert [s][1..] == [];
    assert VisibleOf([s]) == SeenOf(s) + [];
  }

  lemma {:induction false} RunFromOn(w: World, c: Client, a: seq<SetUp>, b: seq<SetUp>)
    requires LegalFrom(w, c, a) && LegalFrom(w, RunFrom(w, c, a), b)
    ensures LegalFrom(w, c, a + b) && RunFrom(w, c, a + b) == RunFrom(w, RunFrom(w, c, a), b)
    decreases |a|
  {
    if |a| == 0 {
      assert a + b == b;
    } else {
      assert (a + b)[1..] == a[1..] + b && (a + b)[0] == a[0];
      RunFromOn(w, ClientNext(w, c, a[0]), a[1..], b);
    }
  }

  lemma {:induction false} VisibleOn(a: seq<SetUp>, b: seq<SetUp>)
    ensures VisibleOf(a + b) == VisibleOf(a) + VisibleOf(b)
  {
    if |a| == 0 {
      assert a + b == b;
    } else {
      assert (a + b)[1..] == a[1..] + b && (a + b)[0] == a[0];
      VisibleOn(a[1..], b);
    }
  }

  lemma DoesOn(w: World, c: Client, a: seq<SetUp>, us: seq<Visible>, p: PlainClient,
      b: seq<SetUp>, vs: seq<Visible>, q: PlainClient)
    requires Does(w, c, a, us, p) && Does(w, RunFrom(w, c, a), b, vs, q)
    ensures Does(w, c, a + b, us + vs, q)
  {
    RunFromOn(w, c, a, b);
    VisibleOn(a, b);
  }

  /** The set-up that only the clone proxy has. */
  lemma LiftFork(w: World, c: Client)
    requires Favourable(w) && ClientInv(c) && PlainEnabled(PlainClientOf(c), PlainFork)
    ensures Does(w, c, LiftSetUp(c, PlainFork), [], PlainNext(PlainClientOf(c), PlainFork))
    decreases if c.parent.ToDuplicate? then 2 else if c.parent.ToPipe? then 1 else 0
  {
    if c.parent.Forking? {
      OneSetUp(w, c, Fork);
    } else {
      var s := if c.parent.ToDuplicate? then ReachDuplicate(true) else MakePipe(true);
      OneSetUp(w, c, s);
      var c1 := ClientNext(w, c, s);
      LiftFork(w, c1);
      assert LiftSetUp(c, PlainFork) == [s] + LiftSetUp(c1, PlainFork);
      DoesOn(w, c, [s], [], PlainClientOf(c), LiftSetUp(c1, PlainFork), [], PlainNext(PlainClientOf(c), PlainFork));
      assert VisibleOf([s]) + [] == [];
    }
  }

  lemma LiftServe(w: World, c: Client, e: Event)
    requires ClientInv(c) && PlainEnabled(PlainClientOf(c), PlainServe(e))
    ensures Does(w, c, LiftSetUp(c, PlainServe(e)), [Served(e)], PlainNext(PlainClientOf(c), PlainServe(e)))
    decreases c.x.request.at.AtWrite?
  {
    if e.Request? && c.x.request.at.AtWrite? {
      var s := Offer(c.x);
      OneSetUp(w, c, Work(s));
      StepIsPlain(c.x, s);
      var c1 := ClientNext(w, c, Work(s));
      LiftServe(w, c1, e);
      assert LiftSetUp(c, PlainServe(e)) == [Work(s)] + LiftSetUp(c1, PlainServe(e));
      DoesOn(w, c, [Work(s)], [], PlainClientOf(c), LiftSetUp(c1, PlainServe(e)), [Served(e)],
             PlainNext(PlainClientOf(c), PlainServe(e)));
      assert [] + [Served(e)] == [Served(e)];
    } else {
      OneSetUp(w, c, Work(Produce(e)));
      StepIsPlain(c.x, Produce(e));
    }
  }

  lemma LiftOneClient(w: World, c: Client, s: PlainStep)
    requires Favourable(w) && ClientInv(c) && PlainEnabled(PlainClientOf(c), s)
    ensures Does(w, c, LiftSetUp(c, s), PlainSeen(s), PlainNext(PlainClientOf(c), s))
  {
    match s
    case PlainReach(ok) => OneSetUp(w, c, Reach(ok));
    case PlainFork => LiftFork(w, c);
    case PlainServe(e) => LiftServe(w, c, e);
  }

  /** From every state that keeps the invariant the clone proxy can do what
      the plain proxy can do, if the duplicate accepts and the pipe can be made; and T3 and T4
      need not take a step for it. */
  lemma {:induction false} ClientsAreServed(w: World, c: Client, ps: seq<PlainStep>) returns (ss: seq<SetUp>)
    requires Favourable(w) && ClientInv(c) && PlainLegalFrom(PlainClientOf(c), ps)
    ensures Does(w, c, ss, PlainVisible(ps), PlainRunFrom(PlainClientOf(c), ps))
    decreases |ps|
  {
    if |ps| == 0 {
      ss := [];
    } else {
      var first := LiftSetUp(c, ps[0]);
      LiftOneClient(w, c, ps[0]);
      var c1 := RunFrom(w, c, first);
      var rest := ClientsAreServed(w, c1, ps[1..]);
      DoesOn(w, c, first, PlainSeen(ps[0]), PlainClientOf(c1), rest, PlainVisible(ps[1..]),
             PlainRunFrom(PlainClientOf(c), ps));
      ss := first + rest;
    }
  }

  /** So in every run, wherever it has come to. */
  lemma ServedFromEveryState(w: World, before: seq<SetUp>, ps: seq<PlainStep>) returns (ss: seq<SetUp>)
    requires Favourable(w) && LegalFrom(w, ClientStart(w), before)
    requires PlainLegalFrom(PlainClientOf(RunFrom(w, ClientStart(w), before)), ps)
    ensures var c := RunFrom(w, ClientStart(w), before);
      Does(w, c, ss, PlainVisible(ps), PlainRunFrom(PlainClientOf(c), ps))
  {
    StartIsPlainStart(w);
    ClientRunKeepsInv(w, ClientStart(w), before);
    ss := ClientsAreServed(w, RunFrom(w, ClientStart(w), before), ps);
  }

  // ------------------------------------------------------------------ exactly when

  lemma {:induction false} NeverDropped(ps: seq<PlainStep>)
    ensures Dropped !in PlainVisible(ps)
  {
    if |ps| > 0 {
      NeverDropped(ps[1..]);
    }
  }

  lemma {:induction false} GivingUpShows(w: World, c: Client, ss: seq<SetUp>)
    requires LegalFrom(w, c, ss) && !c.parent.GaveUp? && RunFrom(w, c, ss).parent.GaveUp?
    ensures Dropped in VisibleOf(ss)
    decreases |ss|
  {
    if |ss| > 0 {
      var c1 := ClientNext(w, c, ss[0]);
      if c1.parent.GaveUp? {
        assert SeenOf(ss[0]) == [Dropped];
      } else {
        GivingUpShows(w, c1, ss[1..]);
      }
    }
  }

  /** A run looks like one of the plain proxy exactly when the clone proxy has not given up, that
      is when neither the connect to the duplicate nor the making of the pipe has failed. */
  lemma LooksPlainExactlyWhen(w: World, ss: seq<SetUp>)
    requires LegalFrom(w, ClientStart(w), ss)
    ensures PlainTrace(VisibleOf(ss)) <==> !RunFrom(w, ClientStart(w), ss).parent.GaveUp?
  {
    StartIsPlainStart(w);
    if RunFrom(w, ClientStart(w), ss).parent.GaveUp? {
      GivingUpShows(w, ClientStart(w), ss);
      if PlainTrace(VisibleOf(ss)) {
        var ps :| PlainLegalFrom(PLAIN_START, ps) && PlainVisible(ps) == VisibleOf(ss);
        NeverDropped(ps);
      }
    } else {
      ClientsSeeThePlainProxy(w, ClientStart(w), ss);
    }
  }

  lemma {:induction false} NobodyGivesUp(w: World, c: Client, ss: seq<SetUp>)
    requires Favourable(w) && LegalFrom(w, c, ss) && !c.parent.GaveUp?
    ensures !RunFrom(w, c, ss).parent.GaveUp?
    decreases |ss|
  {
    if |ss| > 0 {
      NobodyGivesUp(w, ClientNext(w, c, ss[0]), ss[1..]);
    }
  }

  /** Without a connection to the duplicate, refused or merely slow, and without a pipe, nothing is
      ever forwarded between client and server. */
  lemma {:induction false} NothingIsServed(w: World, c: Client, ss: seq<SetUp>)
    requires !Favourable(w) && LegalFrom(w, c, ss) && !c.parent.Forking? && (c.parent.ToPipe? ==> w.duplicate.Accepts?)
    ensures forall v :: v in VisibleOf(ss) ==> !v.Served?
    ensures !RunFrom(w, c, ss).parent.Forking?
    decreases |ss|
  {
    if |ss| > 0 {
      NothingIsServed(w, ClientNext(w, c, ss[0]), ss[1..]);
    }
  }

  /** The plain proxy serves a client, here one that closes its connection at once. */
  lemma PlainServesSomebody()
    ensures PlainTrace([Reached(true), Served(Request(End))])
  {
    var a, b, c := PlainReach(true), PlainFork, PlainServe(Request(End));
    var ps := [a, b, c];
    assert ps[1..] == [b, c] && [b, c][1..] == [c] && [c][1..] == [];
    assert PlainVisible([c]) == [Served(Request(End))] + [];
    assert PlainVisible([b, c]) == [] + PlainVisible([c]);
    assert PlainVisible(ps) == [Reached(true)] + PlainVisible([b, c]);
    var c1 := PlainNext(PLAIN_START, a);
    assert PlainLegalFrom(PlainNext(c1, b), [c]);
    assert PlainLegalFrom(c1, [b, c]);
  }

  /** The clone proxy serves its clients as the plain proxy does exactly when the duplicate accepts
      the connection and the pipe can be made. */
  lemma ServesAsPlainExactlyWhen(w: World)
    ensures (forall vs :: CloneTrace(w, vs) <==> PlainTrace(vs)) <==> w.duplicate.Accepts? && w.pipeWorks
  {
    StartIsPlainStart(w);
    if Favourable(w) {
      forall vs ensures CloneTrace(w, vs) <==> PlainTrace(vs) {
        if CloneTrace(w, vs) {
          var ss :| LegalFrom(w, ClientStart(w), ss) && VisibleOf(ss) == vs;
          NobodyGivesUp(w, ClientStart(w), ss);
          LooksPlainExactlyWhen(w, ss);
        }
        if PlainTrace(vs) {
          var ps :| PlainLegalFrom(PLAIN_START, ps) && PlainVisible(ps) == vs;
          var ss := ClientsAreServed(w, ClientStart(w), ps);
        }
      }
    } else {
      PlainServesSomebody();
      var vs := [Reached(true), Served(Request(End))];
      if CloneTrace(w, vs) {
        var ss :| LegalFrom(w, ClientStart(w), ss) && VisibleOf(ss) == vs;
        NothingIsServed(w, ClientStart(w), ss);
        assert vs[1] in VisibleOf(ss);
      }
    }
  }

  /** A client that the clone proxy drops: the server is there, the duplicate is not. */
  lemma DuplicateRefuses(w: World)
    requires w.duplicate.Refuses?
    ensures var ss := [Reach(true), ReachDuplicate(false)];
      LegalFrom(w, ClientStart(w), ss) && VisibleOf(ss) == [Reached(true), Dropped] && !PlainTrace(VisibleOf(ss))
  {
    var a, b := Reach(true), ReachDuplicate(false);
    assert [a, b][1..] == [b] && [b][1..] == [];
    assert VisibleOf([b]) == [Dropped] + [];
    assert LegalFrom(w, ClientNext(w, ClientStart(w), a), [b]);
    LooksPlainExactlyWhen(w, [a, b]);
  }
}
