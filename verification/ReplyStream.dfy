/** What a stream of reply bytes means to a connection: one step per byte.
    The buffer-at-a-time code of ReplyReceiver is proved to compute the fold of this step. */
module ReplyStream {
  import opened Numerals

  const LF := '\n'
  const CR := '\r'
  const NUL := '\0'
  /** Size of the line buffer; a line has to fit with its NUL. */
  const LINE_BUF_SIZE: nat := 1024

  datatype ConnState = Status | Header | Continue | Data | Chunked | Footer | Done

  /** What a call learns about its reply: the fields of the call and, in order, what the
      header, data and footer events showed (data events are joined). */
  datatype Reply = Reply(version: nat, status: nat, contentBytes: nat,
                         headers: seq<string>, body: string, footers: seq<string>)

  const FRESH := Reply(0, 0, 0, [], "", [])

  /** The reply-related state of a connection. `waiting` holds, for each call in the receive
      queue, whether its method is HEAD; `reply` belongs to the first of them. */
  datatype Receiver = Receiver(state: ConnState, line: string, contentLength: nat, hasBody: bool,
                               isChunked: bool, reply: Reply, waiting: seq<bool>, finished: seq<Reply>)

  /** AssertFailed: bytes arrived though no call waits for a reply. OutOfDomain: the stream
      has a line that is too long or holds a NUL, a status line that cannot be parsed, or
      chunks of more than SIZE_MAX bytes together. */
  datatype View = Live(r: Receiver) | AssertFailed | OutOfDomain

  // ---------------------------------------------------------------- lines

  predicate HasPrefixNoCase(s: string, prefix: string) {
    |prefix| <= |s| && forall i :: 0 <= i < |prefix| ==> Lower(s[i]) == prefix[i]
  }

  predicate EqualNoCase(s: string, t: string) {
    |s| == |t| && HasPrefixNoCase(s, t)
  }

  /** A line without the LF or CR LF that ends it. */
  function Chop(line: string): string {
    var body := if line != [] && line[|line| - 1] == LF then line[..|line| - 1] else line;
    if |body| < |line| && body != [] && body[|body| - 1] == CR then body[..|body| - 1] else body
  }

  /** Does a reply with this status have a body when the method allows one? */
  predicate StatusHasBody(status: nat) {
    status / 100 != 1 && status !in {204, 205, 304}
  }

  /** The effect of a scanned status line. */
  function StatusLine(r: Receiver, scan: StatusScan): View
    requires r.waiting != []
  {
    match scan
    case NoStatus => OutOfDomain
    case StatusScan(major, minor, status) =>
      var isHead := r.waiting[0];
      Live(r.(state := if !isHead && status == 100 then Continue else Header,
              isChunked := false,
              contentLength := SIZE_MAX,
              hasBody := !isHead && StatusHasBody(status),
              reply := r.reply.(version := Low32(0x10000 * major + minor), status := status)))
  }

  /** The effect of one header line on the framing of the body. */
  function Framing(r: Receiver, text: string): Receiver {
    if HasPrefixNoCase(text, "content-length:") then
      var n := StrToUl(text[15..], 10).value;
      r.(contentLength := n, hasBody := r.hasBody && n != 0)
    else if HasPrefixNoCase(text, "transfer-encoding:") then
      var coding := text[18..];
      r.(isChunked := r.isChunked || EqualNoCase(coding[CountSpaces(coding)..], "chunked"))
    else r
  }

  function HeaderLine(r: Receiver, text: string): Receiver {
    if text != [] then
      var f := Framing(r, text);
      f.(reply := f.reply.(headers := f.reply.headers + [text]))
    else if r.hasBody && r.isChunked then r.(state := Chunked, contentLength := 0)
    else if r.hasBody then r.(state := Data)
    else if r.state == Continue then r.(state := Header)
    else r.(state := Done)
  }

  function FooterLine(r: Receiver, text: string): Receiver {
    if text == [] then r.(state := Done)
    else r.(reply := r.reply.(footers := r.reply.footers + [text]))
  }

  /** The number read from a chunk-size line; lines that hold none are skipped. */
  function ChunkSize(r: Receiver, size: Scan): View {
    if size.outOfRange || size.used == 0 then Live(r)
    else if size.value == 0 then Live(r.(state := Footer))
    else if r.contentLength + size.value > SIZE_MAX then OutOfDomain
    else Live(r.(contentLength := r.contentLength + size.value))
  }

  function ChunkLine(r: Receiver, text: string): View {
    if text == [] then Live(r) else ChunkSize(r, StrToUl(text, 16))
  }

  function EndLine(r: Receiver, text: string): View
    requires r.waiting != []
  {
    match r.state
    case Status => StatusLine(r, ScanStatusLine(text))
    case Header | Continue => Live(HeaderLine(r, text))
    case Chunked => ChunkLine(r, text)
    case Footer => Live(FooterLine(r, text))
    case Data | Done => Live(r)
  }

  // ---------------------------------------------------------------- bytes

  /** Are the next bytes content, rather than part of a line? */
  predicate InBody(r: Receiver) {
    r.state == Data || (r.state == Chunked && r.reply.contentBytes < r.contentLength)
  }

  function AddContent(r: Receiver, s: string): Receiver {
    var q := r.(reply := r.reply.(body := r.reply.body + s, contentBytes := r.reply.contentBytes + |s|));
    if r.state == Data && q.reply.contentBytes == r.contentLength then q.(state := Done) else q
  }

  /** A finished reply goes to its call, and the next call's reply begins; nothing is known
      about its framing before its status line is complete. */
  function Settle(v: View): View {
    if v.Live? && v.r.state == Done && v.r.waiting != [] then
      Live(v.r.(state := Status, waiting := v.r.waiting[1..],
                finished := v.r.finished + [v.r.reply], reply := FRESH,
                contentLength := SIZE_MAX, hasBody := false, isChunked := false))
    else v
  }

  function AddToLine(r: Receiver, b: char): View
    requires r.waiting != []
  {
    var line := r.line + [b];
    if b == NUL then OutOfDomain
    else if b == LF then EndLine(r.(line := []), Chop(line))
    else if |line| == LINE_BUF_SIZE - 1 then OutOfDomain
    else Live(r.(line := line))
  }

  function Step(v: View, b: char): View {
    if !v.Live? then v
    else if v.r.waiting == [] then AssertFailed
    else if InBody(v.r) then Settle(Live(AddContent(v.r, [b])))
    else Settle(AddToLine(v.r, b))
  }

  function Feed(v: View, s: string): View
    decreases |s|
  {
    if s == [] then v else Feed(Step(v, s[0]), s[1..])
  }

  /** A sequence of reads. */
  function FeedAll(v: View, parts: seq<string>): View
    decreases |parts|
  {
    if parts == [] then v else FeedAll(Feed(v, parts[0]), parts[1..])
  }

  function Flatten(parts: seq<string>): string {
    if parts == [] then [] else parts[0] + Flatten(parts[1..])
  }

  /** End of file. In a body without chunks it completes the reply, whether the body runs to the
      end of the connection or is shorter than announced (EndOfConnection); anywhere else the
      connection has failed, and the reply in progress is dropped. */
  datatype Outcome = Finished(replies: seq<Reply>) | ConnFailed(replies: seq<Reply>) | Crashed | Unknown

  function EndOfFile(v: View): Outcome {
    match v
    case AssertFailed => Crashed
    case OutOfDomain => Unknown
    case Live(r) =>
      if r.waiting == [] then Crashed
      else if r.state == Data then Finished(r.finished + [r.reply])
      else ConnFailed(r.finished)
  }

  // ---------------------------------------------------------------- what every step keeps

  ghost predicate Inv(v: View) {
    v.Live? ==>
      var r := v.r;
      && r.state != Done
      && |r.line| <= LINE_BUF_SIZE - 2
      && r.contentLength <= SIZE_MAX
      && r.reply.contentBytes == |r.reply.body|
      && (r.state in {Status, Header, Continue} ==> r.reply.contentBytes == 0)
      && (r.state in {Header, Continue} && r.hasBody ==> r.contentLength > 0)
      && (r.state == Data ==> r.reply.contentBytes < r.contentLength)
      && (r.state == Chunked ==> r.reply.contentBytes <= r.contentLength)
      && (InBody(r) ==> r.line == [])
  }

  lemma HeaderLineKeepsInv(r: Receiver, text: string)
    requires r.waiting != [] && r.state in {Header, Continue} && r.line == [] && Inv(Live(r))
    ensures Inv(Settle(Live(HeaderLine(r, text))))
  {
    if text != [] {
      var f := Framing(r, text);
      assert f.state == r.state && f.line == r.line && f.reply == r.reply;
      assert f.contentLength <= SIZE_MAX && (f.hasBody ==> f.contentLength > 0);
    }
  }

  lemma ChunkLineKeepsInv(r: Receiver, text: string)
    requires r.waiting != [] && r.state == Chunked && r.line == [] && Inv(Live(r))
    ensures Inv(ChunkLine(r, text)) && Settle(ChunkLine(r, text)) == ChunkLine(r, text)
  {
  }

  lemma EndLineKeepsInv(r: Receiver, text: string)
    requires r.waiting != [] && r.line == [] && Inv(Live(r)) && r.state != Data
    ensures Inv(Settle(EndLine(r, text)))
  {
    match r.state {
      case Header | Continue => HeaderLineKeepsInv(r, text);
      case Chunked => ChunkLineKeepsInv(r, text);
      case _ =>
    }
  }

  lemma AddContentKeepsInv(r: Receiver, b: char)
    requires r.waiting != [] && InBody(r) && Inv(Live(r))
    ensures Inv(Settle(Live(AddContent(r, [b]))))
  {
  }

  lemma AddToLineKeepsInv(r: Receiver, b: char)
    requires r.waiting != [] && !InBody(r) && Inv(Live(r))
    ensures Inv(Settle(AddToLine(r, b)))
  {
    if b == LF {
      var cleared := r.(line := []);
      assert Inv(Live(cleared));
      EndLineKeepsInv(cleared, Chop(r.line + [b]));
      assert AddToLine(r, b) == EndLine(cleared, Chop(r.line + [b]));
    } else if AddToLine(r, b).Live? {
      assert AddToLine(r, b) == Live(r.(line := r.line + [b]));
    }
  }

  lemma StepKeepsInv(v: View, b: char)
    requires Inv(v)
    ensures Inv(Step(v, b))
  {
    if v.Live? && v.r.waiting != [] {
      if InBody(v.r) {
        AddContentKeepsInv(v.r, b);
      } else {
        AddToLineKeepsInv(v.r, b);
      }
    }
  }

  lemma {:induction false} FeedKeepsInv(v: View, s: string)
    requires Inv(v)
    ensures Inv(Feed(v, s))
    decreases |s|
  {
    if s != [] {
      StepKeepsInv(v, s[0]);
      FeedKeepsInv(Step(v, s[0]), s[1..]);
    }
  }

  lemma {:induction false} FeedAppend(v: View, a: string, b: string)
    ensures Feed(v, a + b) == Feed(Feed(v, a), b)
    decreases |a|
  {
    if a == [] {
      assert a + b == b;
    } else {
      assert (a + b)[1..] == a[1..] + b;
      FeedAppend(Step(v, a[0]), a[1..], b);
    }
  }

  lemma {:induction false} FeedStuck(v: View, s: string)
    requires !v.Live?
    ensures Feed(v, s) == v
  {
    if s != [] {
      FeedStuck(v, s[1..]);
    }
  }

  lemma {:induction false} FeedAllIsFeed(v: View, parts: seq<string>)
    ensures FeedAll(v, parts) == Feed(v, Flatten(parts))
    decreases |parts|
  {
    if parts != [] {
      FeedAllIsFeed(Feed(v, parts[0]), parts[1..]);
      FeedAppend(v, parts[0], Flatten(parts[1..]));
    }
  }

  lemma FeedAllNext(v: View, parts: seq<string>, i: nat)
    requires i < |parts|
    ensures FeedAll(v, parts[..i + 1]) == Feed(FeedAll(v, parts[..i]), parts[i])
  {
    FeedAllIsFeed(v, parts[..i]);
    FeedAllIsFeed(v, parts[..i + 1]);
    FlattenNext(parts, i);
    FeedAppend(v, Flatten(parts[..i]), parts[i]);
  }

  lemma {:induction false} FlattenNext(parts: seq<string>, i: nat)
    requires i < |parts|
    ensures Flatten(parts[..i + 1]) == Flatten(parts[..i]) + parts[i]
  {
    if i > 0 {
      assert parts[..i + 1][1..] == parts[1..][..i] && parts[..i][1..] == parts[1..][..i - 1];
      FlattenNext(parts[1..], i - 1);
    }
  }

  /** A view that is stuck after some of the reads is where all of them lead. */
  lemma {:induction false} FeedAllStuck(v: View, parts: seq<string>, i: nat)
    requires i <= |parts| && (i == |parts| || !FeedAll(v, parts[..i]).Live?)
    ensures FeedAll(v, parts) == FeedAll(v, parts[..i])
    decreases |parts| - i
  {
    if i < |parts| {
      FeedAllNext(v, parts, i);
      FeedStuck(FeedAll(v, parts[..i]), parts[i]);
      FeedAllStuck(v, parts, i + 1);
    } else {
      assert parts[..i] == parts;
    }
  }

  /** How the bytes were cut into reads does not matter. */
  lemma FragmentationIndependence(v: View, parts: seq<string>, others: seq<string>)
    requires Flatten(parts) == Flatten(others)
    ensures FeedAll(v, parts) == FeedAll(v, others)
  {
    FeedAllIsFeed(v, parts);
    FeedAllIsFeed(v, others);
  }

  // ---------------------------------------------------------------- runs of bytes

  /** Bytes that neither end nor overflow the line just extend it. */
  lemma {:induction false} FeedLinePart(r: Receiver, s: string)
    requires r.waiting != [] && !InBody(r) && LF !in s && r.state != Done
    requires |r.line| <= LINE_BUF_SIZE - 2
    ensures Feed(Live(r), s) == OutOfDomain || Feed(Live(r), s) == Live(r.(line := r.line + s))
    ensures Feed(Live(r), s) == OutOfDomain <==> NUL in s || |r.line + s| > LINE_BUF_SIZE - 2
    decreases |s|
  {
    if s == [] {
      assert r.line + s == r.line;
    } else {
      assert s[0] != LF;
      var v := Step(Live(r), s[0]);
      assert s == [s[0]] + s[1..];
      if v.Live? {
        FeedLinePart(v.r, s[1..]);
        assert v.r.line + s[1..] == r.line + s;
      } else {
        FeedStuck(v, s[1..]);
      }
    }
  }

  /** The rest of a line, with its LF. */
  lemma FeedLine(r: Receiver, s: string)
    requires r.waiting != [] && !InBody(r) && LF !in s && r.state != Done
    requires |r.line| <= LINE_BUF_SIZE - 2
    ensures Feed(Live(r), s + [LF]) == OutOfDomain
            || Feed(Live(r), s + [LF]) == Settle(EndLine(r.(line := []), Chop(r.line + s + [LF])))
    ensures NUL in s || |r.line + s| > LINE_BUF_SIZE - 2 ==> Feed(Live(r), s + [LF]) == OutOfDomain
    ensures !(NUL in s || |r.line + s| > LINE_BUF_SIZE - 2) ==>
              Feed(Live(r), s + [LF]) == Settle(EndLine(r.(line := []), Chop(r.line + s + [LF])))
  {
    FeedLinePart(r, s);
    FeedAppend(Live(r), s, [LF]);
    var v := Feed(Live(r), s);
    if v.Live? {
      assert [LF][1..] == [];
      assert Feed(v, [LF]) == Step(v, LF);
      assert v.r.(line := []) == r.(line := []);
    }
  }

  /** Content bytes, up to as many as are still missing. */
  lemma {:induction false} FeedContent(r: Receiver, s: string)
    requires r.waiting != [] && InBody(r) && r.reply.contentBytes < r.contentLength
    requires 0 < |s| <= r.contentLength - r.reply.contentBytes
    ensures Feed(Live(r), s) == Settle(Live(AddContent(r, s)))
    decreases |s|
  {
    var v := Step(Live(r), s[0]);
    if |s| == 1 {
      assert s == [s[0]] && s[1..] == [];
    } else {
      FeedContent(v.r, s[1..]);
      assert r.reply.body + s == r.reply.body + [s[0]] + s[1..];
    }
  }

  // ---------------------------------------------------------------- lines, a buffer at a time

  /** What get_line makes of the line in progress and a buffer: is the line whole now, the
      line, and how many bytes of the buffer were used. */
  datatype LineRead = LineRead(complete: bool, line: string, used: nat)

  /** Where `strchr` and the fall-back put the end of the line: after the first LF, or at the
      end of the buffer if there is none before a NUL. */
  function LineEnd(buf: string): (n: nat)
    ensures n <= |buf| && (buf != [] ==> n > 0) && (n < |buf| ==> buf[n - 1] == LF)
  {
    if buf == [] then 0 else if buf[0] == LF then 1 else if buf[0] == NUL then |buf| else 1 + LineEnd(buf[1..])
  }

  function ReadLine(line: string, buf: string): (r: LineRead)
    requires |line| <= LINE_BUF_SIZE - 2
    ensures r.used <= |buf| && (buf != [] ==> r.used > 0)
    ensures !r.complete ==> |r.line| <= LINE_BUF_SIZE - 2 && r.used == |buf|
  {
    if buf == [] then LineRead(false, line, 0) else
    var whole := line + buf[..LineEnd(buf)];
    var kept := if |whole| < LINE_BUF_SIZE then whole else whole[..LINE_BUF_SIZE - 1];
    if kept[|kept| - 1] == LF || |kept| == LINE_BUF_SIZE - 1 then LineRead(true, Chop(kept), LineEnd(buf))
    else LineRead(false, kept, LineEnd(buf))
  }

  lemma {:induction false} LineEndFinds(buf: string) returns (stop: nat)
    requires buf != []
    ensures stop <= |buf| && LF !in buf[..stop]
    ensures stop < |buf| ==>
              (buf[stop] == LF && LineEnd(buf) == stop + 1) || (buf[stop] == NUL && LineEnd(buf) == |buf|)
    ensures stop == |buf| ==> LineEnd(buf) == |buf|
  {
    if buf[0] == LF || buf[0] == NUL {
      stop := 0;
    } else if |buf| == 1 {
      stop := 1;
    } else {
      var rest := LineEndFinds(buf[1..]);
      stop := 1 + rest;
      assert buf[..stop] == [buf[0]] + buf[1..][..rest];
    }
  }

  lemma {:induction false} LineEndOf(first: string, rest: string)
    requires LF !in first && NUL !in first && (rest != [] ==> rest[0] == LF)
    ensures LineEnd(first + rest) == |first| + if rest == [] then 0 else 1
  {
    if first == [] {
      assert first + rest == rest;
    } else {
      assert (first + rest)[1..] == first[1..] + rest;
      assert first[0] in first;
      LineEndOf(first[1..], rest);
    }
  }

  /** A line that fits, with its LF, or as much of it as the buffer holds. */
  lemma ReadLineThatFits(line: string, first: string, rest: string)
    requires LF !in first && NUL !in first && |line + first| <= LINE_BUF_SIZE - 2
    requires rest != [] ==> rest[0] == LF
    ensures ReadLine(line, first + rest)
            == if rest == [] then LineRead(false, line + first, |first|)
               else LineRead(true, Chop(line + first + [LF]), |first| + 1)
  {
    LineEndOf(first, rest);
    if rest != [] {
      assert (first + rest)[..|first| + 1] == first + [LF] && line + (first + [LF]) == line + first + [LF];
    } else if first != [] {
      assert (first + rest)[..|first|] == first;
      assert (line + first)[|line + first| - 1] == first[|first| - 1] && first[|first| - 1] in first;
    } else {
      assert first + rest == [] && line + first == line;
    }
  }

  /** Reading past a NUL leaves the domain. */
  lemma FeedPastNul(r: Receiver, first: string, rest: string)
    requires r.waiting != [] && !InBody(r) && r.state != Done && |r.line| <= LINE_BUF_SIZE - 2 && LF !in first
    ensures Feed(Live(r), first + [NUL] + rest) == OutOfDomain
  {
    FeedLinePart(r, first + [NUL]);
    FeedAppend(Live(r), first + [NUL], rest);
    FeedStuck(OutOfDomain, rest);
  }

  lemma FeedPart(r: Receiver, first: string)
    requires r.waiting != [] && !InBody(r) && r.state != Done && |r.line| <= LINE_BUF_SIZE - 2 && LF !in first
    requires Feed(Live(r), first) != OutOfDomain
    ensures ReadLine(r.line, first) == LineRead(false, r.line + first, |first|)
    ensures Feed(Live(r), first) == Live(r.(line := r.line + first))
  {
    FeedLinePart(r, first);
    ReadLineThatFits(r.line, first, []);
    assert first + [] == first;
  }

  lemma FeedWhole(r: Receiver, first: string, rest: string)
    requires r.waiting != [] && !InBody(r) && r.state != Done && |r.line| <= LINE_BUF_SIZE - 2 && LF !in first
    requires Feed(Live(r), first + [LF]) != OutOfDomain && rest != [] && rest[0] == LF
    ensures ReadLine(r.line, first + rest) == LineRead(true, Chop(r.line + first + [LF]), |first| + 1)
    ensures Feed(Live(r), first + [LF]) == Settle(EndLine(r.(line := []), Chop(r.line + first + [LF])))
  {
    FeedLine(r, first);
    ReadLineThatFits(r.line, first, rest);
  }

  /** In terms of single bytes, get_line extends the line or ends it. */
  lemma ReadLineFeeds(r: Receiver, buf: string, taken: string)
    requires r.waiting != [] && !InBody(r) && r.state != Done && |r.line| <= LINE_BUF_SIZE - 2
    requires taken == buf[..LineEnd(buf)] && Feed(Live(r), taken) != OutOfDomain
    ensures var got := ReadLine(r.line, buf);
            Feed(Live(r), taken)
            == if got.complete then Settle(EndLine(r.(line := []), got.line)) else Live(r.(line := got.line))
  {
    if buf == [] {
      return;
    }
    var stop := LineEndFinds(buf);
    var first := buf[..stop];
    if stop == |buf| {
      assert taken == buf && first == buf;
      FeedPart(r, buf);
    } else if buf[stop] == NUL {
      assert taken == first + [NUL] + buf[stop + 1..];
      FeedPastNul(r, first, buf[stop + 1..]);
    } else {
      assert taken == first + [LF] && buf == first + buf[stop..];
      FeedWhole(r, first, buf[stop..]);
    }
  }
}
