/** The forwarding loops of the clone proxy, with the system calls they make. Each loop is proved
    to take the steps of its process in CloneProxy, whatever the others do between its calls. */
module ForwardLoops {
  import opened CloneProxy

  /** What only a process itself changes. */
  predicate SameFor(p: Process, x: Proxy, y: Proxy) {
    match p
    case T1 => x.request == y.request
    case T2 => x.response == y.response
    case T3 => x.reader == y.reader && x.copied == y.copied
    case T4 => true
  }

  /** The system in asynchronous mode. `steps` is all that has happened so far. */
  class System {
    const capacity: nat
    const slack: nat
    /** What recv is going to return on the client's socket; after that, 0. */
    var incoming: seq<Bytes>
    /** The same for the server's socket. */
    var answers: seq<Bytes>
    var x: Proxy
    ghost var steps: seq<Step>

    ghost predicate Valid()
      reads this
    {
      && Legal(Start(capacity, slack), steps) && Run(Start(capacity, slack), steps) == x
      && Chunks(incoming) && Chunks(answers)
    }

    constructor (capacity: nat, slack: nat, incoming: seq<Bytes>, answers: seq<Bytes>)
      requires Chunks(incoming) && Chunks(answers)
      ensures Valid() && x == Start(capacity, slack) && this.capacity == capacity && this.slack == slack
      ensures this.incoming == incoming && this.answers == answers
    {
      this.capacity, this.slack, this.incoming, this.answers := capacity, slack, incoming, answers;
      x, steps := Start(capacity, slack), [];
    }

    method Take(s: Step)
      requires Valid() && Enabled(x, s)
      modifies this`x, this`steps
      ensures Valid() && x == Next(old(x), s) && steps == old(steps) + [s]
    {
      assert Legal(x, [s]) && Run(x, [s]) == Next(x, s) by { assert [s][1..] == []; }
      RunOn(Start(capacity, slack), steps, [s]);
      x := Next(x, s);
      steps := steps + [s];
    }

    /** The other processes take any number of steps. */
    method Others(mine: Process)
      requires Valid()
      modifies this`x, this`steps
      ensures Valid() && SameFor(mine, x, old(x))
    {
      var n: nat := *;
      while n > 0
        invariant Valid() && SameFor(mine, x, old(x))
      {
        var s: Step := *;
        if Enabled(x, s) && ProcessOf(s) != mine {
          Take(s);
        }
        n := n - 1;
      }
    }

    /** recv on the client's socket. */
    method Recv(buffer: array<bv8>) returns (n: int)
      requires Valid() && x.request.at.AtRecv? && buffer.Length == BUF_SIZE
      modifies this, buffer
      ensures Valid() && n <= BUF_SIZE
      ensures n > 0 ==> x.request == Do(old(x.request), Receive(buffer[..n]))
      ensures n > 0 ==> old(incoming) == [buffer[..n]] + incoming
      ensures n <= 0 ==> x.request == Do(old(x.request), End) && Stream(incoming) == [] && incoming == old(incoming)
    {
      Others(T1);
      if incoming == [] || incoming[0] == [] {
        n := 0;
        Take(Produce(Request(End)));
        return;
      }
      var c := incoming[0];
      n := |c|;
      forall k | 0 <= k < n {
        buffer[k] := c[k];
      }
      assert buffer[..n] == c && incoming == [c] + incoming[1..];
      Take(Produce(Request(Receive(c))));
      incoming := incoming[1..];
    }

    /** send on the server's socket: all of the chunk goes out, or the process is killed. */
    method SendAll(buffer: array<bv8>, n: nat) returns (alive: bool)
      requires Valid() && n <= buffer.Length && x.request.at == AtSend(buffer[..n])
      modifies this`x, this`steps
      ensures Valid() && x.request == if alive then DoAsynch(old(x.request), Send) else Do(old(x.request), Break)
    {
      Others(T1);
      alive := *;
      Take(Produce(Request(if alive then Send else Break)));
    }

    /** write to the pipe, which does not block: all of the chunk goes in, or nothing. */
    method WritePipe(buffer: array<bv8>, n: nat) returns (written: int)
      requires Valid() && n <= buffer.Length && x.request.at == AtWrite(buffer[..n])
      modifies this`x, this`steps
      ensures Valid() && x.request == old(x.request).(at := AtRecv) && (written == n || written == -1)
    {
      Others(T1);
      PipeNeverFails(capacity, slack, steps);
      var fits: bool := *;
      if !Enabled(x, Write(fits)) {
        fits := !fits;
      }
      written := if fits then n else -1;
      Take(Write(fits));
    }

    /** recv, send and close as T2 calls them, with the sockets the other way round. */
    method RecvAnswer(buffer: array<bv8>) returns (n: int)
      requires Valid() && x.response.at.AtRecv? && buffer.Length == BUF_SIZE
      modifies this, buffer
      ensures Valid() && n <= BUF_SIZE
      ensures n > 0 ==> x.response == Do(old(x.response), Receive(buffer[..n]))
      ensures n > 0 ==> old(answers) == [buffer[..n]] + answers
      ensures n <= 0 ==> x.response == Do(old(x.response), End) && Stream(answers) == [] && answers == old(answers)
    {
      Others(T2);
      if answers == [] || answers[0] == [] {
        n := 0;
        Take(Produce(Response(End)));
        return;
      }
      var c := answers[0];
      n := |c|;
      forall k | 0 <= k < n {
        buffer[k] := c[k];
      }
      assert buffer[..n] == c && answers == [c] + answers[1..];
      Take(Produce(Response(Receive(c))));
      answers := answers[1..];
    }

    method SendAnswer(buffer: array<bv8>, n: nat) returns (alive: bool)
      requires Valid() && n <= buffer.Length && x.response.at == AtSend(buffer[..n])
      modifies this`x, this`steps
      ensures Valid() && x.response == Do(old(x.response), if alive then Send else Break)
    {
      Others(T2);
      alive := *;
      Take(Produce(Response(if alive then Send else Break)));
    }

    method CloseAnswers()
      requires Valid() && x.response.at.AtClose?
      modifies this`x, this`steps
      ensures Valid() && x.response == Do(old(x.response), Close)
    {
      Others(T2);
      Take(Produce(Response(Close)));
    }

    /** read on the pipe, by T3: some of what is inside; -1 stands for a read that still waits. It
        never returns 0. */
    method ReadPipe(buffer: array<bv8>) returns (n: int)
      requires Valid() && x.reader.AtRead? && buffer.Length == BUF_SIZE
      modifies this`x, this`steps, buffer
      ensures Valid() && x.copied == old(x.copied) && n != 0 && n <= BUF_SIZE
      ensures x.reader == if n > 0 then Holding(buffer[..n]) else AtRead
    {
      Others(T3);
      PipeNeverFails(capacity, slack, steps);
      if x.pipe == [] {
        return -1;
      }
      assert 0 < 1 <= BUF_SIZE && 1 <= |x.pipe|;
      n :| 0 < n <= BUF_SIZE && n <= |x.pipe|;
      forall k | 0 <= k < n {
        buffer[k] := x.pipe[k];
      }
      assert buffer[..n] == x.pipe[..n];
      Take(Read(n));
    }

    /** send on the duplicate's socket: the bytes go out, or T3 is killed. */
    method SendDuplicate(buffer: array<bv8>, n: nat) returns (alive: bool)
      requires Valid() && n <= buffer.Length && x.reader == Holding(buffer[..n])
      modifies this`x, this`steps
      ensures Valid()
      ensures if alive then x.reader == AtRead && x.copied == old(x.copied) + buffer[..n]
              else x.reader == Gone(buffer[..n]) && x.copied == old(x.copied)
    {
      Others(T3);
      alive := *;
      Take(if alive then SendDup else Crash);
    }

    /** shutdown and close of both sockets. */
    method CloseBoth()
      requires Valid() && x.request.at.AtClose?
      modifies this`x, this`steps
      ensures Valid() && x.request == Do(old(x.request), Close)
    {
      Others(T1);
      Take(Produce(Request(Close)));
    }
  }

  /** What recv returns fits its buffer. */
  predicate Chunks(results: seq<Bytes>) {
    forall i :: 0 <= i < |results| ==> |results[i]| <= BUF_SIZE
  }

  /** The chunks that come before the end of the input. */
  function Stream(results: seq<Bytes>): seq<Bytes> {
    if |results| == 0 || results[0] == [] then [] else [results[0]] + Stream(results[1..])
  }

  /** T1 has sent all that it has taken in but for the chunk in its buffer. */
  predicate Loaded(f: Flow, chunk: Bytes, rest: seq<Bytes>, all: seq<Bytes>) {
    && all == f.received + Stream(rest)
    && if |chunk| > 0 then f.at == AtSend(chunk) && f.received == f.sent + [chunk]
       else f.at == AtClose && f.received == f.sent && Stream(rest) == []
  }

  function Chunk(buffer: array<bv8>, n: int): Bytes
    requires n <= buffer.Length
    reads buffer
  {
    if n > 0 then buffer[..n] else []
  }

  method RecvNext(sys: System, buffer: array<bv8>, ghost all: seq<Bytes>) returns (n: int)
    requires sys.Valid() && sys.x.request.at.AtRecv? && buffer.Length == BUF_SIZE
    requires all == sys.x.request.received + Stream(sys.incoming) && sys.x.request.received == sys.x.request.sent
    modifies sys, buffer
    ensures sys.Valid() && n <= BUF_SIZE && Loaded(sys.x.request, Chunk(buffer, n), sys.incoming, all)
    ensures n > 0 ==> |sys.incoming| < |old(sys.incoming)|
  {
    n := sys.Recv(buffer);
    if n > 0 {
      assert old(sys.incoming)[1..] == sys.incoming;
      assert Stream(old(sys.incoming)) == [buffer[..n]] + Stream(sys.incoming);
      assert all == (old(sys.x.request).received + [buffer[..n]]) + Stream(sys.incoming);
    }
  }

  /** The body of the loop, up to its next recv. */
  method SendAndCopy(sys: System, buffer: array<bv8>, n: nat) returns (alive: bool)
    requires sys.Valid() && 0 < n <= buffer.Length && sys.x.request.at == AtSend(buffer[..n])
    modifies sys`x, sys`steps
    ensures sys.Valid() && sys.x.request.received == old(sys.x.request).received
    ensures alive ==> sys.x.request.at.AtRecv? && sys.x.request.sent == old(sys.x.request).sent + [buffer[..n]]
    ensures !alive ==> sys.x.request.at.Killed? && sys.x.request.sent == old(sys.x.request).sent
  {
    alive := sys.SendAll(buffer, n);
    if alive {
      var written := sys.WritePipe(buffer, n);
      if written < 0 {
        // perror: the chunk will be missing from the duplicate's stream.
      }
    }
  }

  /** All of the stream has been sent, or the process was killed with a prefix of it sent. */
  predicate Outcome(f: Flow, all: seq<Bytes>) {
    (f.at.Finished? && f.sent == all) || (f.at.Killed? && f.sent <= all)
  }

  lemma KilledOutcome(f: Flow, chunk: Bytes, rest: seq<Bytes>, all: seq<Bytes>, killed: Flow)
    requires Loaded(f, chunk, rest, all) && killed.at.Killed? && killed.sent == f.sent
    ensures Outcome(killed, all)
  {
  }

  lemma SentChunk(f: Flow, chunk: Bytes, rest: seq<Bytes>, all: seq<Bytes>, after: Flow)
    requires Loaded(f, chunk, rest, all) && |chunk| > 0
    requires after.received == f.received && after.sent == f.sent + [chunk]
    ensures all == after.received + Stream(rest) && after.received == after.sent
  {
  }

  lemma ClosedOutcome(f: Flow, rest: seq<Bytes>, all: seq<Bytes>)
    requires Loaded(f, [], rest, all)
    ensures f.at.AtClose? && Outcome(f.(at := Finished), all)
  {
    assert f.received + [] == f.received;
  }

  /** One turn of the loop, with the recv that decides about the next. */
  method Turn(sys: System, buffer: array<bv8>, n: nat, ghost all: seq<Bytes>) returns (alive: bool, next: int)
    requires sys.Valid() && 0 < n <= buffer.Length == BUF_SIZE
    requires Loaded(sys.x.request, buffer[..n], sys.incoming, all)
    modifies sys, buffer
    ensures sys.Valid() && next <= BUF_SIZE && (next > 0 ==> |sys.incoming| < |old(sys.incoming)|)
    ensures if alive then Loaded(sys.x.request, Chunk(buffer, next), sys.incoming, all) else Outcome(sys.x.request, all)
  {
    next := 0;
    ghost var before := sys.x.request;
    alive := SendAndCopy(sys, buffer, n);
    if !alive {
      KilledOutcome(before, buffer[..n], sys.incoming, all, sys.x.request);
      return;
    }
    SentChunk(before, buffer[..n], sys.incoming, all, sys.x.request);
    next := RecvNext(sys, buffer, all);
  }

  /** forward_data_asynch: whatever the duplicate's processes do, all that the client sends goes to
      the server, or T1 is killed by a send, with a prefix of it sent. */
  method ForwardDataAsynch(sys: System)
    requires sys.Valid() && sys.x.request == IDLE
    modifies sys
    ensures sys.Valid() && Outcome(sys.x.request, Stream(old(sys.incoming)))
  {
    var buffer := new bv8[BUF_SIZE];
    ghost var all := Stream(sys.incoming);
    var n := RecvNext(sys, buffer, all);
    while n > 0
      invariant sys.Valid() && n <= BUF_SIZE && Loaded(sys.x.request, Chunk(buffer, n), sys.incoming, all)
      decreases if n > 0 then 1 else 0, |sys.incoming|
    {
      var alive;
      alive, n := Turn(sys, buffer, n, all);
      if !alive {
        return;
      }
    }
    ClosedOutcome(sys.x.request, sys.incoming, all);
    sys.CloseBoth();
  }

  method NextAnswer(sys: System, buffer: array<bv8>, ghost all: seq<Bytes>) returns (n: int)
    requires sys.Valid() && sys.x.response.at.AtRecv? && buffer.Length == BUF_SIZE
    requires all == sys.x.response.received + Stream(sys.answers) && sys.x.response.received == sys.x.response.sent
    modifies sys, buffer
    ensures sys.Valid() && n <= BUF_SIZE && Loaded(sys.x.response, Chunk(buffer, n), sys.answers, all)
    ensures n > 0 ==> |sys.answers| < |old(sys.answers)|
  {
    n := sys.RecvAnswer(buffer);
    if n > 0 {
      assert old(sys.answers)[1..] == sys.answers;
      assert Stream(old(sys.answers)) == [buffer[..n]] + Stream(sys.answers);
      assert all == (old(sys.x.response).received + [buffer[..n]]) + Stream(sys.answers);
    }
  }

  method TurnAnswer(sys: System, buffer: array<bv8>, n: nat, ghost all: seq<Bytes>) returns (alive: bool, next: int)
    requires sys.Valid() && 0 < n <= buffer.Length == BUF_SIZE
    requires Loaded(sys.x.response, buffer[..n], sys.answers, all)
    modifies sys, buffer
    ensures sys.Valid() && next <= BUF_SIZE && (next > 0 ==> |sys.answers| < |old(sys.answers)|)
    ensures if alive then Loaded(sys.x.response, Chunk(buffer, next), sys.answers, all)
            else Outcome(sys.x.response, all)
  {
    next := 0;
    ghost var before := sys.x.response;
    alive := sys.SendAnswer(buffer, n);
    if !alive {
      KilledOutcome(before, buffer[..n], sys.answers, all, sys.x.response);
      return;
    }
    SentChunk(before, buffer[..n], sys.answers, all, sys.x.response);
    next := NextAnswer(sys, buffer, all);
  }

  /** forward_data, as T2 runs it: all that the server answers goes to the client, or T2 is killed
      by a send, with a prefix of it sent. */
  method ForwardData(sys: System)
    requires sys.Valid() && sys.x.response == IDLE
    modifies sys
    ensures sys.Valid() && Outcome(sys.x.response, Stream(old(sys.answers)))
  {
    var buffer := new bv8[BUF_SIZE];
    ghost var all := Stream(sys.answers);
    var n := NextAnswer(sys, buffer, all);
    while n > 0
      invariant sys.Valid() && n <= BUF_SIZE && Loaded(sys.x.response, Chunk(buffer, n), sys.answers, all)
      decreases if n > 0 then 1 else 0, |sys.answers|
    {
      var alive;
      alive, n := TurnAnswer(sys, buffer, n, all);
      if !alive {
        return;
      }
    }
    ClosedOutcome(sys.x.response, sys.answers, all);
    sys.CloseAnswers();
  }

  /** forward_data_pipe, for this many reads: the duplicate is sent just the bytes that have been
      read, in order; if T3 is killed, those of its last read are lost. */
  method ForwardDataPipe(sys: System, turns: nat) returns (ghost read: seq<Bytes>)
    requires sys.Valid() && sys.x.reader.Asleep?
    modifies sys`x, sys`steps
    ensures sys.Valid() && (sys.x.reader.AtRead? || sys.x.reader.Gone?)
    ensures sys.x.copied + Lost(sys.x.reader) == old(sys.x.copied) + Flat(read)
  {
    var buffer := new bv8[BUF_SIZE];
    read := [];
    sys.Others(T3);
    sys.Take(Wake);
    var i := 0;
    while i < turns
      invariant sys.Valid() && sys.x.reader.AtRead? && sys.x.copied == old(sys.x.copied) + Flat(read)
    {
      var n := sys.ReadPipe(buffer);
      if n > 0 {
        FlatMore(old(sys.x.copied), read, buffer[..n]);
        read := read + [buffer[..n]];
        var alive := sys.SendDuplicate(buffer, n);
        if !alive {
          return;
        }
      }
      i := i + 1;
    }
    assert sys.x.copied + [] == sys.x.copied;
  }

  lemma FlatMore(before: Bytes, cs: seq<Bytes>, c: Bytes)
    ensures (before + Flat(cs)) + c == before + Flat(cs + [c])
  {
    FlatAppend(cs, [c]);
    assert Flat([c]) == c + Flat([]) == c;
  }
}
