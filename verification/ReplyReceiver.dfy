/** The buffer-at-a-time reply parser of http.c and the receive loop of core.c, as a
    connection object that its methods update in place. Each method is proved to have the
    effect of the bytes it takes, one by one, in ReplyStream. */
module ReplyReceiver {
  import opened Numerals
  import opened ReplyStream

  /** The bytes `s`, fed to `before`, lead to `after`, unless they leave the domain. */
  ghost predicate Tracks(before: View, s: string, after: View) {
    Inv(before) && Feed(before, s) != OutOfDomain ==> Settle(after) == Feed(before, s)
  }

  lemma TracksCompose(v0: View, a: string, v1: View, b: string, v2: View)
    requires Tracks(v0, a, v1) && Tracks(v1, b, v2) && Settle(v1) == v1
    ensures Tracks(v0, a + b, v2)
  {
    FeedAppend(v0, a, b);
    if Inv(v0) && Feed(v0, a + b) != OutOfDomain {
      FeedStuck(OutOfDomain, b);
      FeedKeepsInv(v0, a);
    }
  }

  /** `complete` and `line` are what get_line makes of `buf`, from `pos` on; `next` is where it stops. */
  ghost predicate GotLine(before: string, buf: string, pos: nat, complete: bool, line: string, next: nat)
    requires |before| <= LINE_BUF_SIZE - 2 && pos <= next <= |buf|
  {
    ReadLine(before, buf[pos..]) == LineRead(complete, line, next - pos)
  }

  lemma GotLineTracks(v: View, buf: string, pos: nat, complete: bool, line: string, next: nat, after: View)
    requires v.Live? && v.r.waiting != [] && !InBody(v.r) && v.r.state != Done && |v.r.line| <= LINE_BUF_SIZE - 2
    requires pos <= next <= |buf| && GotLine(v.r.line, buf, pos, complete, line, next)
    requires !complete ==> after == Live(v.r.(line := line))
    requires complete && EndLine(v.r.(line := []), line) != OutOfDomain ==> after == EndLine(v.r.(line := []), line)
    ensures Tracks(v, buf[pos..next], after)
  {
    assert buf[pos..][..next - pos] == buf[pos..next];
    if Feed(v, buf[pos..next]) != OutOfDomain {
      ReadLineFeeds(v.r, buf[pos..], buf[pos..next]);
    }
  }

  lemma ContentTracks(v: View, s: string, after: View)
    requires v.Live? && v.r.waiting != []
    requires s == [] ==> after == v
    requires Inv(v) && s != [] ==> InBody(v.r) && |s| <= v.r.contentLength - v.r.reply.contentBytes
                                   && after == Live(AddContent(v.r, s))
    ensures Tracks(v, s, after)
  {
    if Inv(v) && s != [] {
      FeedContent(v.r, s);
    }
  }

  /** Tracks, from one stretch of a buffer to the next. */
  lemma TracksOn(v0: View, buf: string, i: nat, v1: View, j: nat, v2: View, k: nat)
    requires i <= j <= k <= |buf|
    requires Tracks(v0, buf[i..j], v1) && Tracks(v1, buf[j..k], v2) && Settle(v1) == v1
    ensures Tracks(v0, buf[i..k], v2)
  {
    assert buf[i..k] == buf[i..j] + buf[j..k];
    TracksCompose(v0, buf[i..j], v1, buf[j..k], v2);
  }

  lemma TracksOneLine(v0: View, buf: string, i: nat, v: View, j: nat, complete: bool, line: string, k: nat, after: View)
    requires i <= j <= k <= |buf| && Tracks(v0, buf[i..j], v)
    requires v.Live? && v.r.waiting != [] && !InBody(v.r) && v.r.state != Done && |v.r.line| <= LINE_BUF_SIZE - 2
    requires GotLine(v.r.line, buf, j, complete, line, k)
    requires !complete ==> after == Live(v.r.(line := line))
    requires complete && EndLine(v.r.(line := []), line) != OutOfDomain ==> after == EndLine(v.r.(line := []), line)
    ensures Tracks(v0, buf[i..k], after)
  {
    GotLineTracks(v, buf, j, complete, line, k, after);
    TracksOn(v0, buf, i, v, j, after, k);
  }

  /** What is copied is what ReadLine keeps. */
  lemma KeptPart(line: string, buf: string, pos: nat, next: nat, n: nat)
    requires |line| <= LINE_BUF_SIZE - 2 && pos < next <= |buf| && next - pos == LineEnd(buf[pos..])
    requires n == if |line| + (next - pos) >= LINE_BUF_SIZE then LINE_BUF_SIZE - 1 - |line| else next - pos
    ensures var kept := line + buf[pos..pos + n];
            ReadLine(line, buf[pos..])
            == if kept[|kept| - 1] == LF || |kept| == LINE_BUF_SIZE - 1 then LineRead(true, Chop(kept), next - pos)
               else LineRead(false, kept, next - pos)
  {
    var whole := line + buf[pos..][..next - pos];
    assert line + buf[pos..pos + n] == if |whole| < LINE_BUF_SIZE then whole else whole[..LINE_BUF_SIZE - 1];
  }

  class Conn {
    var state: ConnState
    const lineBuf: array<char>
    var lineLen: nat
    var contentLength: nat
    var hasBody: bool
    var isChunked: bool
    var reply: Reply
    var waiting: seq<bool>
    var finished: seq<Reply>
    var aborted: bool

    ghost predicate Valid()
      reads this
    {
      && lineBuf.Length == LINE_BUF_SIZE
      && lineLen <= LINE_BUF_SIZE - 2
      && contentLength <= SIZE_MAX && reply.contentBytes <= SIZE_MAX
      && (state in {Status, Header, Continue} ==> reply.contentBytes == 0)
      && (state in {Header, Continue} && hasBody ==> contentLength > 0)
      && (state == Data ==> reply.contentBytes < contentLength)
    }

    ghost function Line(): string
      reads this, lineBuf
      requires lineLen <= lineBuf.Length
    {
      lineBuf[..lineLen]
    }

    ghost function View(): View
      reads this, lineBuf
      requires lineLen <= lineBuf.Length
    {
      if aborted then AssertFailed
      else if state == Status then Live(Receiver(state, Line(), SIZE_MAX, false, false, reply, waiting, finished))
      else Live(Receiver(state, Line(), contentLength, hasBody, isChunked, reply, waiting, finished))
    }

    constructor (calls: seq<bool>)
      ensures Valid() && fresh(lineBuf) && Inv(View())
      ensures View() == Live(Receiver(Status, [], SIZE_MAX, false, false, FRESH, calls, []))
    {
      state, lineLen, contentLength, hasBody, isChunked := Status, 0, SIZE_MAX, false, false;
      lineBuf := new char[LINE_BUF_SIZE];
      reply, waiting, finished, aborted := FRESH, calls, [], false;
    }

    /** A request has been sent: its call joins the receive queue. */
    method Expect(isHead: bool)
      requires Valid() && !aborted
      modifies this`waiting
      ensures Valid() && View() == Live(old(View()).r.(waiting := old(waiting) + [isHead]))
    {
      waiting := waiting + [isHead];
    }

    /** Appends to the line buffer what `buf` holds, from `pos`, up to and including the next
        LF; `complete` says that the line is whole, and its line end is then cut off. A line
        that does not fit is cut to the size of the buffer and taken to be whole. */
    method GetLine(buf: string, pos: nat) returns (complete: bool, next: nat)
      requires Valid() && pos <= |buf|
      modifies this`lineLen, lineBuf
      ensures lineLen < LINE_BUF_SIZE && (!complete ==> lineLen < LINE_BUF_SIZE - 1)
      ensures pos <= next <= |buf| && (pos < |buf| ==> pos < next) && (!complete ==> next == |buf|)
      ensures GotLine(old(Line()), buf, pos, complete, Line(), next) && (complete ==> lineBuf[lineLen] == NUL)
    {
      if pos == |buf| {
        return false, pos;
      }
      next := EndOfLine(buf, pos);
      var toCopy := next - pos;
      if lineLen + toCopy >= lineBuf.Length {
        toCopy := lineBuf.Length - 1 - lineLen;
      }
      KeptPart(old(Line()), buf, pos, next, toCopy);
      CopyToLine(buf, pos, toCopy);
      complete := lineBuf[lineLen - 1] == LF || lineLen == lineBuf.Length - 1;
      if complete {
        ChopLine();
      }
    }

    /** strchr: the end of the line that starts at `pos`, unless a NUL comes first. */
    method EndOfLine(buf: string, pos: nat) returns (eol: nat)
      requires pos < |buf|
      ensures pos < eol <= |buf| && eol - pos == LineEnd(buf[pos..])
    {
      eol := pos;
      while eol < |buf| && buf[eol] != LF && buf[eol] != NUL
        invariant pos <= eol <= |buf|
        invariant LineEnd(buf[pos..]) == eol - pos + LineEnd(buf[eol..])
      {
        assert buf[eol..][1..] == buf[eol + 1..];
        eol := eol + 1;
      }
      if eol < |buf| && buf[eol] == LF {
        eol := eol + 1;
      } else {
        eol := |buf|;
      }
    }

    /** memcpy into the line buffer. */
    method CopyToLine(buf: string, pos: nat, n: nat)
      requires pos + n <= |buf| && lineLen + n <= lineBuf.Length
      modifies this`lineLen, lineBuf
      ensures lineLen == old(lineLen) + n && Line() == old(Line()) + buf[pos..pos + n]
    {
      forall k | 0 <= k < n {
        lineBuf[lineLen + k] := buf[pos + k];
      }
      lineLen := lineLen + n;
    }

    /** Drops the LF or CR LF at the end of the line and terminates the line with a NUL. */
    method ChopLine()
      requires 0 < lineLen < lineBuf.Length
      modifies this`lineLen, lineBuf
      ensures lineLen <= old(lineLen) && Line() == Chop(old(Line())) && lineBuf[lineLen] == NUL
    {
      if lineBuf[lineLen - 1] == LF {
        lineLen := lineLen - 1;
        if lineLen > 0 && lineBuf[lineLen - 1] == CR {
          lineLen := lineLen - 1;
        }
      }
      lineBuf[lineLen] := NUL;
    }

    method ParseStatusLine(buf: string, pos: nat) returns (next: nat)
      requires Valid() && pos <= |buf| && !aborted && waiting != [] && state == Status
      modifies this, lineBuf
      ensures Valid() && !aborted && waiting == old(waiting) && finished == old(finished)
      ensures pos <= next <= |buf| && (pos < |buf| ==> pos < next)
      ensures state in {Status, Header, Continue}
      ensures Tracks(old(View()), buf[pos..next], View())
    {
      isChunked := false;
      contentLength := SIZE_MAX;
      var complete;
      complete, next := GetLine(buf, pos);
      ghost var line := Line();
      if complete {
        StatusText();
      }
      GotLineTracks(old(View()), buf, pos, complete, line, next, View());
    }

    /** A whole status line. */
    method StatusText()
      requires lineLen < lineBuf.Length && contentLength == SIZE_MAX && !isChunked && !aborted
      requires waiting != [] && state == Status
      modifies this`lineLen, this`state, this`hasBody, this`reply
      ensures lineLen == 0 && state in {Header, Continue} && reply.contentBytes == old(reply).contentBytes
      ensures var end := EndLine(old(View()).r.(line := []), old(Line()));
        end != OutOfDomain ==> View() == end
    {
      var scan := ScanStatusLine(lineBuf[..lineLen]);
      BeginReply(scan);
    }

    /** What parse_status_line does with a whole line. If the line cannot be scanned, the
        code decides on the body by an uninitialised status. */
    method BeginReply(scan: StatusScan)
      requires lineLen < lineBuf.Length && contentLength == SIZE_MAX && !isChunked && !aborted
      requires waiting != [] && state == Status
      modifies this`lineLen, this`state, this`hasBody, this`reply
      ensures lineLen == 0 && state in {Header, Continue} && reply.contentBytes == old(reply).contentBytes
      ensures scan.StatusScan? ==> View() == StatusLine(old(View()).r.(line := []), scan)
      ensures scan.NoStatus? ==> reply == old(reply).(version := 0x10000, status := 599)
      ensures waiting[0] ==> !hasBody && state == Header
    {
      var status: nat := *;
      match scan {
        case StatusScan(major, minor, scanned) =>
          status := scanned;
          reply := reply.(version := Low32(0x10000 * major + minor), status := status);
        case NoStatus =>
          reply := reply.(version := 0x10000, status := 599);
      }
      lineLen := 0;
      if waiting[0] {
        hasBody := false;
        state := Header;
      } else {
        hasBody := StatusHasBody(status);
        state := if status == 100 then Continue else Header;
      }
    }

    method ParseHeaders(buf: string, pos: nat) returns (next: nat)
      requires Valid() && pos <= |buf| && !aborted && waiting != [] && state in {Header, Continue}
      modifies this, lineBuf
      ensures Valid() && !aborted && waiting == old(waiting) && finished == old(finished)
      ensures pos <= next <= |buf| && (pos < |buf| ==> pos < next)
      ensures Tracks(old(View()), buf[pos..next], View())
    {
      next := pos;
      var complete, ended := true, false;
      while complete && !ended
        invariant Valid() && !aborted && waiting == old(waiting) && finished == old(finished)
        invariant pos <= next <= |buf|
        invariant !ended ==> state in {Header, Continue}
        invariant pos < |buf| && next == pos ==> complete && !ended
        invariant Tracks(old(View()), buf[pos..next], View())
        decreases |buf| - next, complete
      {
        ghost var from, before := next, View();
        complete, next := GetLine(buf, next);
        ghost var line := Line();
        if complete {
          ended := HeaderText();
        }
        TracksOneLine(old(View()), buf, pos, before, from, complete, line, next, View());
      }
    }

    /** One whole header line, or the empty line that ends the headers. */
    method HeaderText() returns (ended: bool)
      requires lineLen < lineBuf.Length == LINE_BUF_SIZE && state in {Header, Continue} && !aborted && waiting != []
      requires contentLength <= SIZE_MAX && (hasBody ==> contentLength > 0) && reply.contentBytes == 0
      modifies this
      ensures Valid() && lineLen == 0 && !aborted && waiting == old(waiting) && finished == old(finished)
      ensures View() == Live(HeaderLine(old(View()).r.(line := []), old(Line())))
      ensures ended <==> old(Line()) == []
      ensures !ended ==> state == old(state)
    {
      var text := lineBuf[..lineLen];
      ended := text == [];
      if ended {
        if hasBody {
          if isChunked {
            contentLength := 0;
            state := Chunked;
          } else {
            state := Data;
          }
        } else if state == Continue {
          state := Header;
        } else {
          state := Done;
        }
        return;
      }
      FrameBody(text);
      reply := reply.(headers := reply.headers + [text]);
      lineLen := 0;
    }

    /** The header lines that say how the body is framed. */
    method FrameBody(text: string)
      requires lineLen <= lineBuf.Length && state in {Header, Continue} && !aborted
      requires contentLength <= SIZE_MAX && (hasBody ==> contentLength > 0)
      modifies this`contentLength, this`hasBody, this`isChunked
      ensures contentLength <= SIZE_MAX && (hasBody ==> contentLength > 0)
      ensures View() == Live(Framing(old(View()).r, text))
    {
      if HasPrefixNoCase(text, "content-length:") {
        contentLength := StrToUl(text[15..], 10).value;
        if contentLength == 0 {
          hasBody := false;
        }
      } else if HasPrefixNoCase(text, "transfer-encoding:") {
        var coding := text[18..];
        if EqualNoCase(coding[CountSpaces(coding)..], "chunked") {
          isChunked := true;
        }
      }
    }

    method ParseFooters(buf: string, pos: nat) returns (next: nat)
      requires Valid() && pos <= |buf| && !aborted && waiting != [] && state == Footer
      modifies this, lineBuf
      ensures Valid() && !aborted && waiting == old(waiting) && finished == old(finished)
      ensures pos <= next <= |buf| && (pos < |buf| ==> pos < next)
      ensures Tracks(old(View()), buf[pos..next], View())
    {
      next := pos;
      var complete := true;
      while complete && state == Footer
        invariant Valid() && !aborted && waiting == old(waiting) && finished == old(finished)
        invariant pos <= next <= |buf|
        invariant state in {Footer, Done}
        invariant pos < |buf| && next == pos ==> complete && state == Footer
        invariant Tracks(old(View()), buf[pos..next], View())
        decreases |buf| - next, complete
      {
        ghost var from, before := next, View();
        complete, next := GetLine(buf, next);
        ghost var line := Line();
        if complete {
          if lineLen == 0 {
            state := Done;
          } else {
            reply := reply.(footers := reply.footers + [lineBuf[..lineLen]]);
            lineLen := 0;
          }
        }
        TracksOneLine(old(View()), buf, pos, before, from, complete, line, next, View());
      }
    }

    /** Content bytes, up to what is still missing (modulo 2^64, as size_t is computed);
        `all` says that nothing is missing any more. */
    method ParseData(buf: string, pos: nat) returns (all: bool, next: nat)
      requires pos <= |buf| && reply.contentBytes <= SIZE_MAX && contentLength <= SIZE_MAX
      modifies this`reply
      ensures pos <= next <= |buf|
      ensures old(reply).contentBytes != contentLength && pos < |buf| ==> pos < next
      ensures reply.contentBytes <= SIZE_MAX && (next == pos ==> reply == old(reply))
      ensures old(reply).contentBytes <= contentLength ==>
                && next - pos <= contentLength - old(reply).contentBytes
                && (next == |buf| || all)
                && reply == old(reply).(body := old(reply).body + buf[pos..next],
                                        contentBytes := old(reply).contentBytes + (next - pos))
                && (all <==> reply.contentBytes == contentLength)
    {
      var needed := (contentLength - reply.contentBytes) % (SIZE_MAX + 1);
      var n := if |buf| - pos > needed then needed else |buf| - pos;
      next := pos + n;
      reply := reply.(body := reply.body + buf[pos..next],
                      contentBytes := (reply.contentBytes + n) % (SIZE_MAX + 1));
      all := n == needed;
      assert next == pos ==> reply.body == old(reply).body;
    }

    method XferChunked(buf: string, pos: nat) returns (next: nat)
      requires Valid() && pos < |buf| && !aborted && waiting != [] && state == Chunked
      modifies this, lineBuf
      ensures Valid() && !aborted && waiting == old(waiting) && finished == old(finished)
      ensures pos < next <= |buf| && state in {Chunked, Footer}
      ensures Tracks(old(View()), buf[pos..next], View())
    {
      next := pos;
      while next < |buf|
        invariant Valid() && !aborted && waiting == old(waiting) && finished == old(finished)
        invariant pos <= next <= |buf| && state == Chunked
        invariant Tracks(old(View()), buf[pos..next], View())
      {
        ghost var from, before := next, View();
        if reply.contentBytes >= contentLength {
          var complete, more;
          complete, more, next := NextChunk(buf, next);
          TracksOn(old(View()), buf, pos, before, from, View(), next);
          if !complete || state == Footer {
            return;
          }
          if !more {
            continue;
          }
        }
        from, before := next, View();
        next := ChunkData(buf, next);
        TracksOn(old(View()), buf, pos, before, from, View(), next);
      }
    }

    method ChunkData(buf: string, pos: nat) returns (next: nat)
      requires Valid() && pos <= |buf| && !aborted && waiting != [] && state == Chunked
      modifies this`reply
      ensures Valid() && pos <= next <= |buf|
      ensures old(reply).contentBytes < contentLength && pos < |buf| ==> pos < next
      ensures Tracks(old(View()), buf[pos..next], View())
    {
      var all;
      all, next := ParseData(buf, pos);
      ContentTracks(old(View()), buf[pos..next], View());
    }

    /** The line before a chunk: empty, of no use, or the size of the chunk. */
    method NextChunk(buf: string, pos: nat) returns (complete: bool, more: bool, next: nat)
      requires Valid() && pos < |buf| && !aborted && waiting != [] && state == Chunked
      requires reply.contentBytes >= contentLength
      modifies this`lineLen, this`state, this`contentLength, lineBuf
      ensures Valid() && pos < next <= |buf| && state in {Chunked, Footer}
      ensures more ==> state == Chunked
      ensures Tracks(old(View()), buf[pos..next], View())
    {
      complete, next := GetLine(buf, pos);
      ghost var line := Line();
      more := false;
      if complete && lineLen > 0 {
        var size := StrToUl(lineBuf[..lineLen], 16);
        more := BeginChunk(size);
      }
      GotLineTracks(old(View()), buf, pos, complete, line, next, View());
    }

    method BeginChunk(size: Scan) returns (more: bool)
      requires lineLen < lineBuf.Length && state == Chunked && !aborted && contentLength <= SIZE_MAX
      modifies this`lineLen, this`state, this`contentLength
      ensures lineLen == 0 && state in {Chunked, Footer} && contentLength <= SIZE_MAX
      ensures more ==> state == Chunked
      ensures var end := ChunkSize(old(View()).r.(line := []), size);
              end != OutOfDomain ==> View() == end
    {
      lineLen := 0;
      if size.outOfRange || size.used == 0 {
        return false;
      }
      if size.value == 0 {
        state := Footer;
        return false;
      }
      contentLength := (contentLength + size.value) % (SIZE_MAX + 1);
      more := true;
    }

    /** Takes bytes of the reply in progress until it is done or the buffer is empty. */
    method ProcessReplyBytes(buf: string, pos: nat) returns (next: nat)
      requires Valid() && pos < |buf| && !aborted && waiting != [] && state != Done
      modifies this, lineBuf
      ensures Valid() && !aborted && waiting == old(waiting) && finished == old(finished)
      ensures pos < next <= |buf| && (next == |buf| || state == Done)
      ensures Tracks(old(View()), buf[pos..next], View())
    {
      next := pos;
      while next < |buf| && state != Done
        invariant Valid() && !aborted && waiting == old(waiting) && finished == old(finished)
        invariant pos <= next <= |buf| && (next == pos ==> state != Done)
        invariant Tracks(old(View()), buf[pos..next], View())
      {
        ghost var from, before := next, View();
        match state {
          case Status => next := ParseStatusLine(buf, next);
          case Header | Continue => next := ParseHeaders(buf, next);
          case Footer => next := ParseFooters(buf, next);
          case Chunked => next := XferChunked(buf, next);
          case Data =>
            var all;
            all, next := ParseData(buf, next);
            if all {
              state := Done;
            }
            ContentTracks(before, buf[from..next], View());
        }
        TracksOn(old(View()), buf, pos, before, from, View(), next);
      }
    }

    /** The reply of the first waiting call is complete. */
    method RecvDone()
      requires waiting != []
      modifies this`waiting, this`finished, this`reply
      ensures waiting == old(waiting)[1..] && finished == old(finished) + [old(reply)] && reply == FRESH
    {
      finished := finished + [reply];
      waiting := waiting[1..];
      reply := FRESH;
    }

    /** One read of at least one byte: replies are processed, and their calls taken off the
        receive queue, until the buffer is empty. */
    method DoRecv(buf: string)
      requires Valid() && !aborted && state != Done && buf != []
      modifies this, lineBuf
      ensures Valid() && (aborted || state != Done)
      ensures Inv(old(View())) && Feed(old(View()), buf) != OutOfDomain ==> View() == Feed(old(View()), buf)
    {
      var pos := 0;
      while pos < |buf|
        invariant Valid() && !aborted && pos <= |buf| && state != Done
        invariant Tracks(old(View()), buf[..pos], View())
      {
        ghost var from, before := pos, View();
        if waiting == [] {
          aborted := true;  // assert (c)
          assert buf == buf[..pos] + buf[pos..];
          Unasked(old(View()), buf[..pos], before, buf[pos..]);
          return;
        }
        pos := ProcessReplyBytes(buf, pos);
        if state == Done {
          RecvDone();
          state := Status;
        }
        assert buf[..pos] == buf[..from] + buf[from..pos];
        TracksCompose(old(View()), buf[..from], before, buf[from..pos], View());
      }
      assert buf[..pos] == buf;
    }

    /** A sequence of reads, each as the socket happens to deliver it. */
    method RecvAll(parts: seq<string>)
      requires Valid() && !aborted && state != Done && "" !in parts
      modifies this, lineBuf
      ensures Valid()
      ensures Inv(old(View())) && FeedAll(old(View()), parts) != OutOfDomain ==> View() == FeedAll(old(View()), parts)
    {
      var i := 0;
      while i < |parts| && !aborted
        invariant Valid() && i <= |parts| && (aborted || state != Done)
        invariant Inv(old(View())) && FeedAll(old(View()), parts[..i]) != OutOfDomain ==>
                    Inv(View()) && View() == FeedAll(old(View()), parts[..i])
      {
        assert parts[i] in parts;
        ghost var before := View();
        DoRecv(parts[i]);
        FeedAllNext(old(View()), parts, i);
        FeedStuck(OutOfDomain, parts[i]);
        if Inv(before) {
          FeedKeepsInv(before, parts[i]);
        }
        i := i + 1;
      }
      if Inv(old(View())) {
        FeedAllStuck(old(View()), parts, i);
      }
    }

    /** A read that reports the end of the connection. */
    method RecvEof() returns (failed: bool)
      requires Valid() && !aborted && state != Done
      modifies this
      ensures old(View()).r.waiting == [] ==> aborted
      ensures EndOfFile(old(View()))
              == if aborted then Crashed else if failed then ConnFailed(finished) else Finished(finished)
    {
      if waiting == [] {
        aborted := true;  // assert (c)
        return false;
      }
      failed := state != Data;
      if !failed {
        state := Done;
        RecvDone();
      }
    }
  }

  /** Bytes that no call waits for. */
  lemma Unasked(v0: View, a: string, v: View, b: string)
    requires Tracks(v0, a, v) && v.Live? && v.r.waiting == [] && b != []
    ensures Inv(v0) && Feed(v0, a + b) != OutOfDomain ==> Feed(v0, a + b) == AssertFailed
  {
    FeedAppend(v0, a, b);
    FeedStuck(OutOfDomain, b);
    FeedStuck(AssertFailed, b[1..]);
  }
}
