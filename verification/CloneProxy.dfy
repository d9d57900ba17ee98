/** The clone proxy in asynchronous mode, as four processes that take turns in any order: T1 and
    T2 carry the production traffic, T1 also offers a copy of each chunk to a bounded pipe that
    never blocks it, T3 carries the copies to the duplicate and T4 throws its answers away.
    Once all four run, the production traffic is proved to be that of the plain proxy, whatever
    becomes of the duplicate, and the duplicate is proved to get the same stream, but for whole
    chunks. Before that the duplicate has to accept a connection: see HandleClient. */
module CloneProxy {

  type Bytes = seq<bv8>

  const BUF_SIZE: nat := 1024

  /** Where a forwarding loop is. */
  datatype Place = AtRecv | AtSend(chunk: Bytes) | AtWrite(chunk: Bytes) | AtClose | Finished | Killed

  /** One direction of the production traffic, with what it has taken in and sent out. */
  datatype Flow = Flow(at: Place, received: seq<Bytes>, sent: seq<Bytes>)

  /** One step of a production process: recv returns a chunk, or 0 or an error; send transmits
      the chunk, or meets a closed connection and kills the process; the sockets are closed. */
  datatype Act = Receive(chunk: Bytes) | End | Send | Break | Close

  datatype Process = T1 | T2 | T3 | T4

  // ------------------------------------------------------------------ the plain proxy

  predicate Can(f: Flow, a: Act) {
    match a
    case Receive(c) => f.at.AtRecv? && 0 < |c| <= BUF_SIZE
    case End => f.at.AtRecv?
    case Send => f.at.AtSend?
    case Break => f.at.AtSend?
    case Close => f.at.AtClose?
  }

  /** forward_data. */
  function Do(f: Flow, a: Act): Flow
    requires Can(f, a)
  {
    match a
    case Receive(c) => f.(at := AtSend(c), received := f.received + [c])
    case End => f.(at := AtClose)
    case Send => f.(at := AtRecv, sent := f.sent + [f.at.chunk])
    case Break => f.(at := Killed)
    case Close => f.(at := Finished)
  }

  const IDLE := Flow(AtRecv, [], [])

  /** The plain proxy: T1 forwards requests and T2 answers. */
  datatype Plain = Plain(request: Flow, response: Flow)

  /** A production event, of T1 or of T2. */
  datatype Event = Request(act: Act) | Response(act: Act)

  predicate PlainCan(p: Plain, e: Event) {
    if e.Request? then Can(p.request, e.act) else Can(p.response, e.act)
  }

  function PlainDo(p: Plain, e: Event): Plain
    requires PlainCan(p, e)
  {
    if e.Request? then p.(request := Do(p.request, e.act)) else p.(response := Do(p.response, e.act))
  }

  // ------------------------------------------------------------------ the clone proxy

  /** T3: it sleeps, waits for the pipe, has bytes in its buffer, or is no more. */
  datatype Reader = Asleep | AtRead | Holding(buf: Bytes) | Gone(lost: Bytes)

  /** Besides the two flows: the pipe, with the processes that have its ends open; what has been
      put into the pipe and how often it was full; T3; and what the duplicate has been sent. The
      pipe never holds more than its capacity, but kernels keep whole pages of it, and it may be
      full when there are only `slack` bytes left. */
  datatype Proxy = Proxy(
    request: Flow, response: Flow,
    pipe: Bytes, capacity: nat, slack: nat, readEnds: set<Process>, writeEnds: set<Process>,
    accepted: seq<Bytes>, refused: nat,
    reader: Reader, copied: Bytes)

  datatype Step =
    | Produce(event: Event)   // a production event
    | Write(fits: bool)       // T1 offers a chunk to the pipe, which takes it or is full
    | Wake                    // T3 ends its sleep
    | Read(n: nat)            // T3 takes bytes from the pipe
    | ReadEnd                 // T3 finds the pipe empty and without writers
    | SendDup                 // T3 sends them to the duplicate
    | Crash                   // T3 ends, perhaps because the duplicate is gone
    | Leave(p: Process)       // T2 or T4 ends

  function ProcessOf(s: Step): Process {
    match s
    case Produce(e) => if e.Request? then T1 else T2
    case Write(_) => T1
    case Leave(p) => p
    case _ => T3
  }

  /** The pipe may take n bytes, or refuse them. */
  predicate Takes(x: Proxy, n: nat, fits: bool) {
    if fits then |x.pipe| + n <= x.capacity else |x.pipe| + n + x.slack > x.capacity
  }

  predicate Enabled(x: Proxy, s: Step) {
    match s
    case Produce(e) => if e.Request? then Can(x.request, e.act) else Can(x.response, e.act)
    case Write(fits) => x.request.at.AtWrite? && Takes(x, |x.request.at.chunk|, fits)
    case Wake => x.reader.Asleep?
    case Read(n) => x.reader.AtRead? && 0 < n <= BUF_SIZE && n <= |x.pipe|
    case ReadEnd => x.reader.AtRead? && x.pipe == [] && x.writeEnds == {}
    case SendDup => x.reader.Holding?
    case Crash => !x.reader.Gone?
    case Leave(p) => p == T4 || (p == T2 && (x.response.at.Finished? || x.response.at.Killed?))
  }

  /** T1's loop in forward_data_asynch: each chunk goes to the pipe after it has been sent. */
  function DoAsynch(f: Flow, a: Act): Flow
    requires Can(f, a)
  {
    if a.Send? then Do(f, a).(at := AtWrite(f.at.chunk)) else Do(f, a)
  }

  /** A process that ends gives up its ends of the pipe. */
  function WithoutEnds(x: Proxy, p: Process): Proxy {
    x.(readEnds := x.readEnds - {p}, writeEnds := x.writeEnds - {p})
  }

  function Lost(r: Reader): Bytes {
    match r
    case Holding(buf) => buf
    case Gone(lost) => lost
    case _ => []
  }

  function Next(x: Proxy, s: Step): Proxy
    requires Enabled(x, s)
  {
    match s
    case Produce(e) =>
      if e.Response? then x.(response := Do(x.response, e.act))
      else
        var x1 := x.(request := DoAsynch(x.request, e.act));
        if e.act.Close? || e.act.Break? then WithoutEnds(x1, T1) else x1
    case Write(fits) =>
      // A pipe that nobody can read from kills its writer; a full one refuses the chunk.
      var c, f := x.request.at.chunk, x.request.(at := AtRecv);
      if x.readEnds == {} then WithoutEnds(x.(request := x.request.(at := Killed)), T1)
      else if fits then x.(request := f, pipe := x.pipe + c, accepted := x.accepted + [c])
      else x.(request := f, refused := x.refused + 1)
    case Wake => x.(reader := AtRead)
    case Read(n) => x.(reader := Holding(x.pipe[..n]), pipe := x.pipe[n..])
    case ReadEnd => WithoutEnds(x.(reader := Gone([])), T3)
    case SendDup => x.(reader := AtRead, copied := x.copied + x.reader.buf)
    case Crash => WithoutEnds(x.(reader := Gone(Lost(x.reader))), T3)
    case Leave(p) => WithoutEnds(x, p)
  }

  /** All processes are forked with both ends of the pipe open. */
  function Start(capacity: nat, slack: nat): Proxy {
    var all := {T1, T2, T3, T4};
    Proxy(IDLE, IDLE, [], capacity, slack, all, all, [], 0, Asleep, [])
  }

  predicate Legal(x: Proxy, ss: seq<Step>)
    decreases |ss|
  {
    |ss| == 0 || (Enabled(x, ss[0]) && Legal(Next(x, ss[0]), ss[1..]))
  }

  function Run(x: Proxy, ss: seq<Step>): Proxy
    requires Legal(x, ss)
    decreases |ss|
  {
    if |ss| == 0 then x else Run(Next(x, ss[0]), ss[1..])
  }

  // ------------------------------------------------------------------ what is kept

  function Flat(cs: seq<Bytes>): Bytes {
    if |cs| == 0 then [] else cs[0] + Flat(cs[1..])
  }

  predicate Alive(f: Flow) {
    !f.at.Finished? && !f.at.Killed?
  }

  /** The chunks that have been offered to the pipe. */
  function Offered(f: Flow): seq<Bytes> {
    if f.at.AtWrite? && |f.sent| > 0 then f.sent[..|f.sent| - 1] else f.sent
  }

  predicate Subsequence(a: seq<Bytes>, b: seq<Bytes>)
    decreases |b|
  {
    if |a| == 0 then true
    else if |b| == 0 then false
    else if a[|a| - 1] == b[|b| - 1] && Subsequence(a[..|a| - 1], b[..|b| - 1]) then true
    else Subsequence(a, b[..|b| - 1])
  }

  /** What has gone into the pipe is what has come out of it or is still inside. */
  predicate NothingInvented(x: Proxy) {
    x.copied + Lost(x.reader) + x.pipe == Flat(x.accepted) && |x.pipe| <= x.capacity
  }

  /** And it is the production stream, but for the chunks that were refused. */
  predicate OnlyRefusedMissing(f: Flow, accepted: seq<Bytes>, refused: nat) {
    && Subsequence(accepted, Offered(f)) && |accepted| + refused == |Offered(f)|
    && (f.at.AtWrite? ==> |f.sent| > 0 && f.sent[|f.sent| - 1] == f.at.chunk)
  }

  /** Whoever lives keeps its ends of the pipe open. */
  predicate EndsOpen(x: Proxy) {
    && (Alive(x.request) ==> T1 in x.readEnds)
    && (!x.reader.Gone? ==> T3 in x.writeEnds)
  }

  /** T3 reads into a buffer of its own. */
  predicate HeldFits(r: Reader) {
    r.Holding? ==> 0 < |r.buf| <= BUF_SIZE
  }

  predicate Inv(x: Proxy) {
    && NothingInvented(x) && OnlyRefusedMissing(x.request, x.accepted, x.refused) && EndsOpen(x)
    && !x.response.at.AtWrite? && HeldFits(x.reader)
  }

  lemma {:induction false} FlatAppend(a: seq<Bytes>, b: seq<Bytes>)
    ensures Flat(a + b) == Flat(a) + Flat(b)
  {
    if |a| == 0 {
      assert a + b == b;
    } else {
      assert (a + b)[1..] == a[1..] + b;
      FlatAppend(a[1..], b);
    }
  }

  lemma AcceptKeeps(f: Flow, accepted: seq<Bytes>, refused: nat)
    requires OnlyRefusedMissing(f, accepted, refused) && f.at.AtWrite?
    ensures OnlyRefusedMissing(f.(at := AtRecv), accepted + [f.at.chunk], refused)
    ensures OnlyRefusedMissing(f.(at := AtRecv), accepted, refused + 1)
  {
    var more := accepted + [f.at.chunk];
    assert more[..|more| - 1] == accepted && more[|more| - 1] == f.at.chunk;
    assert f.sent[..|f.sent| - 1] == Offered(f);
  }

  lemma FlatOneMore(cs: seq<Bytes>, c: Bytes)
    ensures Flat(cs + [c]) == Flat(cs) + c
  {
    FlatAppend(cs, [c]);
    assert Flat([c]) == c + Flat([]) == c;
  }

  lemma AcceptInventsNothing(copied: Bytes, held: Bytes, pipe: Bytes, accepted: seq<Bytes>, c: Bytes)
    requires copied + held + pipe == Flat(accepted)
    ensures copied + held + (pipe + c) == Flat(accepted + [c])
  {
    FlatOneMore(accepted, c);
    assert copied + held + (pipe + c) == (copied + held + pipe) + c;
  }

  lemma WriteKeepsInv(x: Proxy, fits: bool)
    requires Inv(x) && Enabled(x, Write(fits))
    ensures Inv(Next(x, Write(fits)))
  {
    AcceptKeeps(x.request, x.accepted, x.refused);
    AcceptInventsNothing(x.copied, Lost(x.reader), x.pipe, x.accepted, x.request.at.chunk);
    var after := Next(x, Write(fits));
    assert OnlyRefusedMissing(after.request, after.accepted, after.refused);
  }

  lemma ActKeeps(f: Flow, a: Act, accepted: seq<Bytes>, refused: nat)
    requires OnlyRefusedMissing(f, accepted, refused) && Can(f, a)
    ensures OnlyRefusedMissing(DoAsynch(f, a), accepted, refused)
  {
    if a.Send? {
      assert (f.sent + [f.at.chunk])[..|f.sent|] == f.sent;
    }
  }

  lemma ProduceKeepsInv(x: Proxy, e: Event)
    requires Inv(x) && Enabled(x, Produce(e))
    ensures Inv(Next(x, Produce(e)))
  {
    var after := Next(x, Produce(e));
    if e.Request? {
      ActKeeps(x.request, e.act, x.accepted, x.refused);
      assert after.request == DoAsynch(x.request, e.act);
    }
    assert NothingInvented(after) && EndsOpen(after);
  }

  lemma CopyKeepsInv(x: Proxy, s: Step)
    requires Inv(x) && Enabled(x, s) && (s.Wake? || s.Read? || s.ReadEnd? || s.SendDup? || s.Crash? || s.Leave?)
    ensures Inv(Next(x, s))
  {
    if s.Read? {
      assert x.copied + x.pipe[..s.n] + x.pipe[s.n..] == x.copied + [] + x.pipe;
    }
    if s.SendDup? {
      assert (x.copied + x.reader.buf) + [] + x.pipe == x.copied + Lost(x.reader) + x.pipe;
    }
  }

  lemma {:induction false} StepKeepsInv(x: Proxy, s: Step)
    requires Inv(x) && Enabled(x, s)
    ensures Inv(Next(x, s))
  {
    if s.Produce? {
      ProduceKeepsInv(x, s.event);
    } else if s.Write? {
      WriteKeepsInv(x, s.fits);
    } else {
      CopyKeepsInv(x, s);
    }
  }

  lemma {:induction false} RunKeepsInv(x: Proxy, ss: seq<Step>)
    requires Inv(x) && Legal(x, ss)
    ensures Inv(Run(x, ss))
    decreases |ss|
  {
    if |ss| > 0 {
      StepKeepsInv(x, ss[0]);
      RunKeepsInv(Next(x, ss[0]), ss[1..]);
    }
  }

  // ------------------------------------------------------------------ non-interference

  /** What production can tell about a flow: not whether a chunk is being offered to the pipe. */
  function Seen(f: Flow): Flow {
    if f.at.AtWrite? then f.(at := AtRecv) else f
  }

  function AsPlain(x: Proxy): Plain {
    Plain(Seen(x.request), x.response)
  }

  /** A step of the clone proxy is one of the plain proxy, or production cannot tell it. HandleClient
      has the simulations in both directions, from a client's acceptance on. */
  lemma StepIsPlain(x: Proxy, s: Step)
    requires Inv(x) && Enabled(x, s)
    ensures if s.Produce? then PlainCan(AsPlain(x), s.event) && AsPlain(Next(x, s)) == PlainDo(AsPlain(x), s.event)
            else AsPlain(Next(x, s)) == AsPlain(x)
  {
  }

  lemma {:induction false} RunOn(x: Proxy, a: seq<Step>, b: seq<Step>)
    requires Legal(x, a) && Legal(Run(x, a), b)
    ensures Legal(x, a + b) && Run(x, a + b) == Run(Run(x, a), b)
    decreases |a|
  {
    if |a| == 0 {
      assert a + b == b;
    } else {
      assert (a + b)[1..] == a[1..] + b && (a + b)[0] == a[0];
      RunOn(Next(x, a[0]), a[1..], b);
    }
  }

  /** Writing to the pipe never kills T1, since T1 itself keeps the pipe's read end open, and
      never makes it wait; and T3 never sees the end of the pipe, since it keeps a write end. */
  lemma PipeNeverFails(capacity: nat, slack: nat, ss: seq<Step>)
    requires Legal(Start(capacity, slack), ss)
    ensures var x := Run(Start(capacity, slack), ss);
      && (x.request.at.AtWrite? ==> Enabled(x, Write(true)) || Enabled(x, Write(false)))
      && (forall fits :: Enabled(x, Write(fits)) ==> Next(x, Write(fits)).request.at == AtRecv)
      && !Enabled(x, ReadEnd)
  {
    RunKeepsInv(Start(capacity, slack), ss);
  }

  /** The step by which a process comes to its end. */
  predicate Ends(s: Step, p: Process) {
    match s
    case Produce(Request(a)) => p == T1 && (a.Close? || a.Break?)
    case ReadEnd => p == T3
    case Crash => p == T3
    case Leave(q) => p == q
    case _ => false
  }

  predicate Ended(ss: seq<Step>, p: Process) {
    exists i :: 0 <= i < |ss| && Ends(ss[i], p)
  }

  lemma EndsAreGivenUp(x: Proxy, s: Step, p: Process)
    requires Inv(x) && Enabled(x, s)
    ensures p in Next(x, s).readEnds <==> p in x.readEnds && !Ends(s, p)
    ensures p in Next(x, s).writeEnds <==> p in x.writeEnds && !Ends(s, p)
  {
  }

  lemma {:induction false} EndsOfRun(x: Proxy, ss: seq<Step>, p: Process)
    requires Inv(x) && Legal(x, ss)
    ensures p in Run(x, ss).readEnds <==> p in x.readEnds && !Ended(ss, p)
    ensures p in Run(x, ss).writeEnds <==> p in x.writeEnds && !Ended(ss, p)
    decreases |ss|
  {
    if |ss| > 0 {
      EndsAreGivenUp(x, ss[0], p);
      StepKeepsInv(x, ss[0]);
      EndsOfRun(Next(x, ss[0]), ss[1..], p);
      assert Ended(ss, p) <==> Ends(ss[0], p) || Ended(ss[1..], p) by {
        assert forall i :: 0 < i < |ss| ==> ss[i] == ss[1..][i - 1];
      }
    }
  }

  /** Who has the pipe open, at either end, are the processes that have not ended. */
  lemma EndsAreTheLiving(capacity: nat, slack: nat, ss: seq<Step>, p: Process)
    requires Legal(Start(capacity, slack), ss)
    ensures p in Run(Start(capacity, slack), ss).readEnds <==> !Ended(ss, p)
    ensures p in Run(Start(capacity, slack), ss).writeEnds <==> !Ended(ss, p)
  {
    EndsOfRun(Start(capacity, slack), ss, p);
  }

  // ------------------------------------------------------------------ the duplicate's stream

  /** What the duplicate has been sent, what T3 holds or has lost and what is in the pipe are the
      accepted chunks, one after the other: the production stream without the refused chunks. */
  lemma DuplicateGetsTheStream(capacity: nat, slack: nat, ss: seq<Step>)
    requires Legal(Start(capacity, slack), ss)
    ensures var x := Run(Start(capacity, slack), ss);
      && x.copied + Lost(x.reader) + x.pipe == Flat(x.accepted)
      && Subsequence(x.accepted, Offered(x.request)) && |x.accepted| + x.refused == |Offered(x.request)|
      && (x.refused == 0 ==> x.copied + Lost(x.reader) + x.pipe == Flat(Offered(x.request)))
      && (x.reader.Holding? ==> 0 < |x.reader.buf| <= BUF_SIZE)
  {
    RunKeepsInv(Start(capacity, slack), ss);
    var x := Run(Start(capacity, slack), ss);
    if x.refused == 0 {
      FullSubsequence(x.accepted, Offered(x.request));
    }
  }

  lemma {:induction false} SubsequenceIsShorter(a: seq<Bytes>, b: seq<Bytes>)
    requires Subsequence(a, b)
    ensures |a| <= |b|
    decreases |b|
  {
    if |a| > 0 {
      if Subsequence(a[..|a| - 1], b[..|b| - 1]) {
        SubsequenceIsShorter(a[..|a| - 1], b[..|b| - 1]);
      } else {
        SubsequenceIsShorter(a, b[..|b| - 1]);
      }
    }
  }

  lemma {:induction false} FullSubsequence(a: seq<Bytes>, b: seq<Bytes>)
    requires Subsequence(a, b) && |a| == |b|
    ensures a == b
    decreases |b|
  {
    if |a| > 0 {
      if a[|a| - 1] == b[|b| - 1] && Subsequence(a[..|a| - 1], b[..|b| - 1]) {
        FullSubsequence(a[..|a| - 1], b[..|b| - 1]);
        assert a == a[..|a| - 1] + [a[|a| - 1]] && b == b[..|b| - 1] + [b[|b| - 1]];
      } else {
        SubsequenceIsShorter(a, b[..|b| - 1]);
      }
    }
  }

  /** What a flow has sent is what it has received, but for a chunk on its way. */
  predicate InOrder(f: Flow) {
    && f.sent <= f.received
    && match f.at
       case AtSend(c) => f.received == f.sent + [c]
       case Killed => true
       case _ => f.received == f.sent
  }

  /** Nothing is refused while the pipe could hold everything that has been received. */
  predicate NoneRefused(x: Proxy) {
    InOrder(x.request) && (|Flat(x.request.received)| + x.slack <= x.capacity ==> x.refused == 0)
  }

  lemma WriteRefusesNone(x: Proxy, fits: bool)
    requires Inv(x) && Enabled(x, Write(fits)) && NoneRefused(x)
    ensures NoneRefused(Next(x, Write(fits)))
  {
    var c, f := x.request.at.chunk, x.request;
    assert f.sent == Offered(f) + [c];
    FlatOneMore(Offered(f), c);
    if |Flat(f.received)| + x.slack <= x.capacity {
      FullSubsequence(x.accepted, Offered(f));
      assert |x.pipe| <= |Flat(x.accepted)|;
    }
  }

  lemma ActInOrder(f: Flow, a: Act)
    requires InOrder(f) && Can(f, a)
    ensures InOrder(DoAsynch(f, a)) && |Flat(f.received)| <= |Flat(DoAsynch(f, a).received)|
  {
    if a.Receive? {
      FlatAppend(f.received, [a.chunk]);
    }
  }

  lemma StepRefusesNone(x: Proxy, s: Step)
    requires Inv(x) && Enabled(x, s) && NoneRefused(x)
    ensures NoneRefused(Next(x, s)) && Next(x, s).capacity == x.capacity && Next(x, s).slack == x.slack
  {
    if s.Write? {
      WriteRefusesNone(x, s.fits);
    } else if s.Produce? && s.event.Request? {
      ActInOrder(x.request, s.event.act);
    }
  }

  lemma {:induction false} RunRefusesNone(x: Proxy, ss: seq<Step>)
    requires Inv(x) && Legal(x, ss) && NoneRefused(x)
    ensures NoneRefused(Run(x, ss)) && Run(x, ss).capacity == x.capacity && Run(x, ss).slack == x.slack
    decreases |ss|
  {
    if |ss| > 0 {
      StepKeepsInv(x, ss[0]);
      StepRefusesNone(x, ss[0]);
      RunRefusesNone(Next(x, ss[0]), ss[1..]);
    }
  }

  /** A pipe that has room for all of a request stream before it can be full refuses no chunk of it,
      however late the duplicate is: then nothing at all is missing. */
  lemma BigPipeRefusesNone(capacity: nat, slack: nat, ss: seq<Step>)
    requires Legal(Start(capacity, slack), ss)
    requires |Flat(Run(Start(capacity, slack), ss).request.received)| + slack <= capacity
    ensures Run(Start(capacity, slack), ss).refused == 0
  {
    RunRefusesNone(Start(capacity, slack), ss);
  }
}
