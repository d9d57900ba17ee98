/** Well-formed replies as a server writes them, and the proof that the byte-at-a-time
    reading of ReplyStream gets exactly those replies back, however they are pipelined and
    however the stream is cut into reads. What is well formed is said in terms of characters and
    numbers, not of the functions that scan them. */
module WireReplies {
  import opened Numerals
  import opened ReplyStream

  const CRLF := [CR, LF]

  /** A header line. The name of a framing header may be in any case; the number of a
      Content-Length may be written in any of the ways that C knows, with something behind it. */
  datatype Header =
    | Plain(text: string)
    | Length(name: string, number: Subject, n: nat, rest: string)
    | Coding(name: string, blanks: string, coding: string)

  /** A chunk: its size, what stands behind that on the same line, and its bytes. */
  datatype Chunk = Chunk(size: Subject, extension: string, data: string)

  /** How the end of the body is marked (RFC 7230 section 3.3.3). */
  datatype Body =
    | NoBody
    | Sized(body: string)
    | InChunks(chunks: seq<Chunk>, lastSize: Subject, lastExtension: string, trailers: seq<string>)

  datatype WireReply = WireReply(major: nat, minor: nat, status: nat, reason: string, headers: seq<Header>, body: Body)

  function Datas(chunks: seq<Chunk>): seq<string> {
    if chunks == [] then [] else [chunks[0].data] + Datas(chunks[1..])
  }

  /** The content of a chunked body. */
  function Joined(chunks: seq<Chunk>): string {
    Flatten(Datas(chunks))
  }

  // ---------------------------------------------------------------- writing

  function HeaderText(h: Header): string {
    match h
    case Plain(text) => text
    case Length(name, number, _, rest) => name + (Text(number) + rest)
    case Coding(name, blanks, coding) => name + (blanks + coding)
  }

  function Texts(headers: seq<Header>): seq<string> {
    if headers == [] then [] else [HeaderText(headers[0])] + Texts(headers[1..])
  }

  function EncodeLines(lines: seq<string>): string {
    if lines == [] then [] else lines[0] + CRLF + EncodeLines(lines[1..])
  }

  function SizeLine(size: Subject, extension: string): string {
    Text(size) + extension
  }

  /** The chunks and the last-chunk of a chunked body (RFC 7230 section 4.1). */
  function EncodeChunks(chunks: seq<Chunk>, size: Subject, last: string): string {
    if chunks == [] then SizeLine(size, last) + CRLF
    else
      var c := chunks[0];
      SizeLine(c.size, c.extension) + CRLF + (c.data + (CRLF + EncodeChunks(chunks[1..], size, last)))
  }

  /** The status line and the headers. */
  function Head(w: WireReply): string {
    StatusText(w.major, w.minor, w.status, w.reason) + CRLF + EncodeLines(Texts(w.headers))
  }

  /** What comes after the empty line behind the headers. */
  function BodyPart(b: Body): string {
    match b
    case NoBody => []
    case Sized(body) => body
    case InChunks(chunks, size, last, trailers) => EncodeChunks(chunks, size, last) + (EncodeLines(trailers) + CRLF)
  }

  function Encode(w: WireReply): string {
    Head(w) + CRLF + BodyPart(w.body)
  }

  function EncodeAll(ws: seq<WireReply>): string {
    if ws == [] then [] else Encode(ws[0]) + EncodeAll(ws[1..])
  }

  // ---------------------------------------------------------------- what is well formed

  predicate GoodLine(text: string) {
    LF !in text && NUL !in text && |text| <= LINE_BUF_SIZE - 3
  }

  /** The same letters, whatever their case. */
  predicate AnyCase(s: string, small: string, big: string) {
    |s| == |small| == |big| && forall i :: 0 <= i < |s| ==> s[i] == small[i] || s[i] == big[i]
  }

  predicate IsLengthName(s: string) {
    AnyCase(s, "content-length:", "CONTENT-LENGTH:")
  }

  predicate IsCodingName(s: string) {
    AnyCase(s, "transfer-encoding:", "TRANSFER-ENCODING:")
  }

  predicate IsChunked(s: string) {
    AnyCase(s, "chunked", "CHUNKED")
  }

  predicate GoodHeader(h: Header) {
    && HeaderText(h) != [] && GoodLine(HeaderText(h))
    && match h
       case Plain(text) =>
         !(|text| >= 15 && IsLengthName(text[..15])) && !(|text| >= 18 && IsCodingName(text[..18]))
       case Length(name, number, n, rest) =>
         IsLengthName(name) && Written(number, n, 10) && GoesNoFurther(number.prefix, number.digits, rest, 10)
       case Coding(name, blanks, coding) =>
         IsCodingName(name) && AllBlank(blanks) && (coding != [] ==> coding[0] !in BLANKS)
  }

  predicate GoodHeaders(headers: seq<Header>) {
    forall i :: 0 <= i < |headers| ==> GoodHeader(headers[i])
  }

  /** How a reply is framed: its length, whether there is a body at all, and whether in chunks. */
  datatype Frame = Frame(length: nat, body: bool, chunked: bool)

  /** The length that a Content-Length header gives: too large a number is the largest one, and a
      negative one wraps around. */
  function Given(h: Header): nat
    requires h.Length?
  {
    if h.n > SIZE_MAX then SIZE_MAX else if h.number.sign.Minus? && h.n > 0 then SIZE_MAX + 1 - h.n else h.n
  }

  /** Later headers overrule earlier ones, but no header undoes a length of 0 or a coding in chunks. */
  function Framed(f: Frame, headers: seq<Header>): Frame
    decreases |headers|
  {
    if headers == [] then f
    else
      var h := headers[0];
      var g := match h
               case Plain(_) => f
               case Length(_, _, _, _) => f.(length := Given(h), body := f.body && Given(h) != 0)
               case Coding(_, _, coding) => f.(chunked := f.chunked || IsChunked(coding));
      Framed(g, headers[1..])
  }

  /** Replies with these statuses never have a body (RFC 7230 section 3.3.3, RFC 7231 section 6.3.6). */
  predicate Bodyless(status: nat) {
    100 <= status <= 199 || status == 204 || status == 205 || status == 304
  }

  function FrameOf(w: WireReply, isHead: bool): Frame {
    Framed(Frame(SIZE_MAX, !isHead && !Bodyless(w.status), false), w.headers)
  }

  predicate GoodNumbers(w: WireReply) {
    && w.major < 0x1_0000_0000 && w.minor < 0x1_0000_0000 && w.status < 0x1_0000_0000
    && GoodLine(StatusText(w.major, w.minor, w.status, w.reason))
  }

  /** A status line that fits, for a reply other than 100 to a method other than HEAD. */
  predicate GoodHead(w: WireReply, isHead: bool) {
    GoodNumbers(w) && (isHead || w.status != 100) && GoodHeaders(w.headers)
  }

  /** Anything may stand behind a chunk size that does not go on with the number, if it fits. */
  predicate GoodSize(size: Subject, n: nat, extension: string) {
    && Written(size, n, 16) && !size.sign.Minus? && n <= SIZE_MAX
    && GoesNoFurther(size.prefix, size.digits, extension, 16) && GoodLine(SizeLine(size, extension))
  }

  predicate GoodChunk(c: Chunk) {
    c.data != [] && GoodSize(c.size, |c.data|, c.extension)
  }

  predicate GoodTrailers(trailers: seq<string>) {
    forall t :: t in trailers ==> t != [] && GoodLine(t)
  }

  predicate GoodChunks(b: Body)
    requires b.InChunks?
  {
    && (forall c :: c in b.chunks ==> GoodChunk(c)) && |Joined(b.chunks)| <= SIZE_MAX
    && GoodSize(b.lastSize, 0, b.lastExtension) && GoodTrailers(b.trailers)
  }

  /** The body is framed as its headers say. A reply without a body may have any of them, as replies
      to HEAD do. */
  predicate WellFormed(w: WireReply, isHead: bool) {
    && GoodHead(w, isHead)
    && var f := FrameOf(w, isHead);
       match w.body
       case NoBody => !f.body
       case Sized(body) => f.body && !f.chunked && |body| == f.length
       case InChunks(_, _, _, _) => f.body && f.chunked && GoodChunks(w.body)
  }

  function Content(b: Body): string {
    match b
    case NoBody => []
    case Sized(body) => body
    case InChunks(chunks, _, _, _) => Joined(chunks)
  }

  /** The reply as far as its headers go. */
  function HeadOf(w: WireReply): Reply {
    Reply(Low32(0x10000 * w.major + w.minor), w.status, 0, Texts(w.headers), [], [])
  }

  /** What a call should learn from a reply. */
  function Meaning(w: WireReply): Reply {
    HeadOf(w).(body := Content(w.body), contentBytes := |Content(w.body)|,
               footers := if w.body.InChunks? then w.body.trailers else [])
  }

  // ---------------------------------------------------------------- reading lines

  /** At the start of a line. */
  predicate AtLine(r: Receiver) {
    r.waiting != [] && !InBody(r) && r.state != Done && r.line == []
  }

  lemma ChopCrLf(text: string)
    ensures Chop(text + [CR] + [LF]) == text && text + [CR] + [LF] == text + CRLF
  {
    var line := text + [CR] + [LF];
    assert line[..|line| - 1] == text + [CR];
    assert (text + [CR])[..|text|] == text;
  }

  lemma FeedText(r: Receiver, text: string)
    requires AtLine(r) && GoodLine(text)
    ensures Feed(Live(r), text + CRLF) == Settle(EndLine(r, text))
  {
    ChopCrLf(text);
    FeedLine(r, text + [CR]);
    assert r.line + (text + [CR]) + [LF] == text + [CR] + [LF];
    assert r.(line := []) == r;
  }

  lemma FeedEmptyLine(r: Receiver)
    requires AtLine(r)
    ensures Feed(Live(r), CRLF) == Settle(EndLine(r, []))
  {
    FeedText(r, []);
    assert [] + CRLF == CRLF;
  }

  lemma ChopLf(text: string)
    requires text != [] ==> text[|text| - 1] != CR
    ensures Chop(text + [LF]) == text
  {
    assert (text + [LF])[..|text|] == text;
  }

  lemma FeedBareText(r: Receiver, text: string)
    requires AtLine(r) && GoodLine(text) && (text != [] ==> text[|text| - 1] != CR)
    ensures Feed(Live(r), text + [LF]) == Settle(EndLine(r, text))
  {
    ChopLf(text);
    FeedLine(r, text);
    assert r.line + text + [LF] == text + [LF];
    assert r.(line := []) == r;
  }

  /** A line that ends with a bare LF is read like one that ends with CR LF. */
  lemma BareLf(r: Receiver, text: string)
    requires AtLine(r) && GoodLine(text) && (text != [] ==> text[|text| - 1] != CR)
    ensures Feed(Live(r), text + [LF]) == Feed(Live(r), text + CRLF)
  {
    FeedText(r, text);
    FeedBareText(r, text);
  }

  lemma {:induction false} FeedTrailers(r: Receiver, lines: seq<string>)
    requires AtLine(r) && r.state == Footer && GoodTrailers(lines)
    ensures Feed(Live(r), EncodeLines(lines)) == Live(r.(reply := r.reply.(footers := r.reply.footers + lines)))
    decreases |lines|
  {
    if lines == [] {
      assert r.reply.footers + lines == r.reply.footers;
    } else {
      assert forall t :: t in lines[1..] ==> t in lines;
      assert lines[0] in lines;
      FeedText(r, lines[0]);
      var q := r.(reply := r.reply.(footers := r.reply.footers + [lines[0]]));
      FeedAppend(Live(r), lines[0] + CRLF, EncodeLines(lines[1..]));
      FeedTrailers(q, lines[1..]);
      assert r.reply.footers + lines == r.reply.footers + [lines[0]] + lines[1..];
    }
  }

  // ---------------------------------------------------------------- reading headers

  lemma LowerLetter(c: char, small: char, big: char)
    requires Lower(big) == small && Lower(small) == small && !('A' <= small <= 'Z')
    requires if big != small then 'A' <= big <= 'Z' else !('a' <= small <= 'z')
    ensures c == small || c == big <==> Lower(c) == small
  {
  }

  /** Letters, and characters that have no case. */
  predicate CasesOf(small: string, big: string) {
    |small| == |big| && forall i :: 0 <= i < |small| ==>
      Lower(big[i]) == small[i] && Lower(small[i]) == small[i] && !('A' <= small[i] <= 'Z')
      && (big[i] != small[i] ==> 'A' <= big[i] <= 'Z') && (big[i] == small[i] ==> !('a' <= small[i] <= 'z'))
  }

  lemma PrefixInAnyCase(s: string, small: string, big: string)
    requires CasesOf(small, big)
    ensures HasPrefixNoCase(s, small) <==> |s| >= |small| && AnyCase(s[..|small|], small, big)
    ensures EqualNoCase(s, small) <==> AnyCase(s, small, big)
  {
    forall i | 0 <= i < |s| && i < |small| ensures s[i] == small[i] || s[i] == big[i] <==> Lower(s[i]) == small[i] {
      LowerLetter(s[i], small[i], big[i]);
    }
    if |s| >= |small| {
      assert forall i :: 0 <= i < |small| ==> s[..|small|][i] == s[i];
    }
  }

  lemma LengthCases()
    ensures CasesOf("content-length:", "CONTENT-LENGTH:")
  {
  }

  lemma CodingCases()
    ensures CasesOf("transfer-encoding:", "TRANSFER-ENCODING:")
  {
  }

  lemma ChunkedCases()
    ensures CasesOf("chunked", "CHUNKED")
  {
  }

  lemma IsNoOtherName(s: string)
    requires |s| >= 18 && IsCodingName(s[..18])
    ensures !IsLengthName(s[..15])
  {
    assert s[..18][0] == s[..15][0];
  }

  lemma {:induction false} BlanksBefore(blanks: string, coding: string)
    requires AllBlank(blanks) && (coding != [] ==> coding[0] !in BLANKS)
    ensures CountSpaces(blanks + coding) == |blanks|
  {
    if blanks == [] {
      assert blanks + coding == coding;
      if coding != [] {
        BlankIsSpace(coding[0]);
      }
    } else {
      BlankIsSpace(blanks[0]);
      assert (blanks + coding)[1..] == blanks[1..] + coding;
      BlanksBefore(blanks[1..], coding);
    }
  }

  /** The receiver with this frame and more headers. */
  function WithHeaders(r: Receiver, f: Frame, texts: seq<string>): Receiver {
    r.(contentLength := f.length, hasBody := f.body, isChunked := f.chunked,
       reply := r.reply.(headers := r.reply.headers + texts))
  }

  function FrameIn(r: Receiver): Frame {
    Frame(r.contentLength, r.hasBody, r.isChunked)
  }

  lemma PlainFraming(r: Receiver, text: string)
    requires GoodHeader(Plain(text))
    ensures Framing(r, text) == r
  {
    LengthCases();
    CodingCases();
    PrefixInAnyCase(text, "content-length:", "CONTENT-LENGTH:");
    PrefixInAnyCase(text, "transfer-encoding:", "TRANSFER-ENCODING:");
  }

  lemma LengthFraming(r: Receiver, h: Header)
    requires GoodHeader(h) && h.Length?
    ensures Framing(r, HeaderText(h)) == r.(contentLength := Given(h), hasBody := r.hasBody && Given(h) != 0)
  {
    var text := HeaderText(h);
    LengthCases();
    PrefixInAnyCase(text, "content-length:", "CONTENT-LENGTH:");
    assert text[..15] == h.name && text[15..] == Text(h.number) + h.rest;
    ReadBack(h.number, h.n, 10, h.rest);
  }

  lemma CodingFraming(r: Receiver, h: Header)
    requires GoodHeader(h) && h.Coding?
    ensures Framing(r, HeaderText(h)) == r.(isChunked := r.isChunked || IsChunked(h.coding))
  {
    var text := HeaderText(h);
    LengthCases();
    CodingCases();
    ChunkedCases();
    assert text[..18] == h.name && text[18..] == h.blanks + h.coding;
    IsNoOtherName(text);
    PrefixInAnyCase(text, "content-length:", "CONTENT-LENGTH:");
    PrefixInAnyCase(text, "transfer-encoding:", "TRANSFER-ENCODING:");
    BlanksBefore(h.blanks, h.coding);
    assert text[18..][|h.blanks|..] == h.coding;
    PrefixInAnyCase(h.coding, "chunked", "CHUNKED");
  }

  predicate TakesHeaders(r: Receiver) {
    AtLine(r) && (r.state == ConnState.Header || r.state == Continue)
  }

  lemma OneHeader(r: Receiver, h: Header)
    requires TakesHeaders(r) && GoodHeader(h)
    ensures Feed(Live(r), HeaderText(h) + CRLF) == Live(WithHeaders(r, Framed(FrameIn(r), [h]), [HeaderText(h)]))
  {
    match h {
      case Plain(text) => PlainFraming(r, text);
      case Length(_, _, _, _) => LengthFraming(r, h);
      case Coding(_, _, _) => CodingFraming(r, h);
    }
    FeedText(r, HeaderText(h));
    assert [h][1..] == [];
  }

  lemma FramedOn(f: Frame, h: Header, headers: seq<Header>)
    ensures Framed(f, [h] + headers) == Framed(Framed(f, [h]), headers)
  {
    assert ([h] + headers)[1..] == headers && [h][1..] == [];
  }

  lemma OneMoreHeader(r: Receiver, headers: seq<Header>)
    requires headers != []
    ensures EncodeLines(Texts(headers)) == HeaderText(headers[0]) + CRLF + EncodeLines(Texts(headers[1..]))
    ensures var q := WithHeaders(r, Framed(FrameIn(r), [headers[0]]), [HeaderText(headers[0])]);
      WithHeaders(q, Framed(FrameIn(q), headers[1..]), Texts(headers[1..]))
      == WithHeaders(r, Framed(FrameIn(r), headers), Texts(headers))
  {
    var h, rest := headers[0], headers[1..];
    assert headers == [h] + rest;
    FramedOn(FrameIn(r), h, rest);
    assert Texts(headers)[1..] == Texts(rest);
    assert r.reply.headers + Texts(headers) == r.reply.headers + [HeaderText(h)] + Texts(rest);
  }

  /** Headers have just the effect on the framing that they should have. */
  lemma {:induction false} FeedHeaders(r: Receiver, headers: seq<Header>)
    requires TakesHeaders(r) && GoodHeaders(headers)
    ensures Feed(Live(r), EncodeLines(Texts(headers)))
         == Live(WithHeaders(r, Framed(FrameIn(r), headers), Texts(headers)))
    decreases |headers|
  {
    if headers == [] {
      assert r.reply.headers + [] == r.reply.headers;
    } else {
      var h, rest := headers[0], headers[1..];
      OneHeader(r, h);
      var q := WithHeaders(r, Framed(FrameIn(r), [h]), [HeaderText(h)]);
      FeedAppend(Live(r), HeaderText(h) + CRLF, EncodeLines(Texts(rest)));
      FeedHeaders(q, rest);
      OneMoreHeader(r, headers);
    }
  }

  // ---------------------------------------------------------------- reading chunks

  function AfterChunks(r: Receiver, body: string): Receiver {
    r.(state := Footer, contentLength := r.contentLength + |body|,
       reply := r.reply.(body := r.reply.body + body, contentBytes := r.reply.contentBytes + |body|))
  }

  lemma FeedChunkSize(r: Receiver, size: Subject, n: nat, extension: string)
    requires AtLine(r) && r.state == Chunked && r.contentLength + n <= SIZE_MAX && GoodSize(size, n, extension)
    ensures Feed(Live(r), SizeLine(size, extension) + CRLF)
            == Live(if n == 0 then r.(state := Footer) else r.(contentLength := r.contentLength + n))
  {
    FeedText(r, SizeLine(size, extension));
    ReadBack(size, n, 16, extension);
  }

  /** A line that holds no number, or too large a one, is skipped. */
  lemma BadChunkLine(r: Receiver, blanks: string, sign: Sign, rest: string)
    requires AtLine(r) && r.state == Chunked && AllBlank(blanks) && !StartsWithDigit(rest, 16)
    requires sign.NoSign? && rest != [] ==> rest[0] !in BLANKS && rest[0] !in "+-"
    requires GoodLine(blanks + (SignText(sign) + rest))
    ensures Feed(Live(r), blanks + (SignText(sign) + rest) + CRLF) == Live(r)
  {
    FeedText(r, blanks + (SignText(sign) + rest));
    ReadNothing(blanks, sign, rest, 16);
  }

  lemma HugeChunkLine(r: Receiver, size: Subject, n: nat, extension: string)
    requires AtLine(r) && r.state == Chunked && Written(size, n, 16) && n > SIZE_MAX
    requires GoesNoFurther(size.prefix, size.digits, extension, 16) && GoodLine(SizeLine(size, extension))
    ensures Feed(Live(r), SizeLine(size, extension) + CRLF) == Live(r)
  {
    FeedText(r, SizeLine(size, extension));
    ReadBack(size, n, 16, extension);
  }

  function WithChunk(r: Receiver, c: string): Receiver {
    r.(contentLength := r.contentLength + |c|,
       reply := r.reply.(body := r.reply.body + c, contentBytes := r.reply.contentBytes + |c|))
  }

  lemma FeedThen(v: View, a: string, mid: View, b: string, after: View)
    requires Feed(v, a) == mid && Feed(mid, b) == after
    ensures Feed(v, a + b) == after
  {
    FeedAppend(v, a, b);
  }

  lemma FeedChunkBytes(r: Receiver, c: string)
    requires AtLine(r) && r.state == Chunked && r.reply.contentBytes == r.contentLength && c != []
    ensures Feed(Live(r.(contentLength := r.contentLength + |c|)), c) == Live(WithChunk(r, c))
  {
    var d := r.(contentLength := r.contentLength + |c|);
    FeedContent(d, c);
    assert AddContent(d, c) == WithChunk(r, c);
  }

  lemma FeedBehindChunk(r: Receiver)
    requires AtLine(r) && r.state == Chunked
    ensures Feed(Live(r), CRLF) == Live(r)
  {
    FeedEmptyLine(r);
  }

  lemma FeedChunkData(r: Receiver, c: string)
    requires AtLine(r) && r.state == Chunked && r.reply.contentBytes == r.contentLength && c != []
    ensures Feed(Live(r.(contentLength := r.contentLength + |c|)), c + CRLF) == Live(WithChunk(r, c))
    ensures AtLine(WithChunk(r, c))
  {
    FeedChunkBytes(r, c);
    FeedBehindChunk(WithChunk(r, c));
    FeedThen(Live(r.(contentLength := r.contentLength + |c|)), c, Live(WithChunk(r, c)), CRLF, Live(WithChunk(r, c)));
  }

  lemma FeedChunk(r: Receiver, c: Chunk)
    requires AtLine(r) && r.state == Chunked && r.reply.contentBytes == r.contentLength
    requires GoodChunk(c) && r.contentLength + |c.data| <= SIZE_MAX
    ensures Feed(Live(r), SizeLine(c.size, c.extension) + CRLF + (c.data + CRLF)) == Live(WithChunk(r, c.data))
    ensures AtLine(WithChunk(r, c.data))
  {
    var line, d := SizeLine(c.size, c.extension) + CRLF, Live(r.(contentLength := r.contentLength + |c.data|));
    FeedChunkSize(r, c.size, |c.data|, c.extension);
    FeedChunkData(r, c.data);
    FeedThen(Live(r), line, d, c.data + CRLF, Live(WithChunk(r, c.data)));
  }

  lemma FeedLastChunk(r: Receiver, size: Subject, last: string)
    requires AtLine(r) && r.state == Chunked && r.contentLength <= SIZE_MAX && GoodSize(size, 0, last)
    ensures Feed(Live(r), EncodeChunks([], size, last)) == Live(AfterChunks(r, []))
  {
    FeedChunkSize(r, size, 0, last);
    assert r.reply.body + [] == r.reply.body;
  }

  lemma AfterOneMore(r: Receiver, chunks: seq<Chunk>, size: Subject, last: string)
    requires chunks != []
    ensures AfterChunks(WithChunk(r, chunks[0].data), Joined(chunks[1..])) == AfterChunks(r, Joined(chunks))
    ensures EncodeChunks(chunks, size, last) == SizeLine(chunks[0].size, chunks[0].extension) + CRLF
                                                + (chunks[0].data + CRLF) + EncodeChunks(chunks[1..], size, last)
  {
    assert Datas(chunks)[1..] == Datas(chunks[1..]);
    assert r.reply.body + Joined(chunks) == r.reply.body + chunks[0].data + Joined(chunks[1..]);
  }

  /** The chunks, read back: exactly their bytes, whatever these are. */
  lemma {:induction false} FeedChunks(r: Receiver, chunks: seq<Chunk>, size: Subject, last: string)
    requires AtLine(r) && r.state == Chunked && r.reply.contentBytes == r.contentLength
    requires (forall c :: c in chunks ==> GoodChunk(c)) && GoodSize(size, 0, last)
    requires r.contentLength + |Joined(chunks)| <= SIZE_MAX
    ensures Feed(Live(r), EncodeChunks(chunks, size, last)) == Live(AfterChunks(r, Joined(chunks)))
    decreases |chunks|
  {
    if chunks == [] {
      FeedLastChunk(r, size, last);
    } else {
      var c := chunks[0];
      assert c in chunks && forall d :: d in chunks[1..] ==> d in chunks;
      AfterOneMore(r, chunks, size, last);
      FeedChunk(r, c);
      FeedAppend(Live(r), SizeLine(c.size, c.extension) + CRLF + (c.data + CRLF),
                 EncodeChunks(chunks[1..], size, last));
      FeedChunks(WithChunk(r, c.data), chunks[1..], size, last);
    }
  }

  function Shortest(n: nat): Subject {
    Subject("", NoSign, NoPrefix, Numeral(n, 16))
  }

  /** Chunks as they are usually written. */
  function WithoutExtensions(datas: seq<string>): seq<Chunk> {
    if datas == [] then [] else [Chunk(Shortest(|datas[0]|), [], datas[0])] + WithoutExtensions(datas[1..])
  }

  lemma NoExtensionIsGood(n: nat)
    requires n <= SIZE_MAX
    ensures GoodSize(Shortest(n), n, [])
  {
    NumeralDenotes(n, 16);
    NumeralChars(Numeral(n, 16), n, 16);
    SizeNumeralLength(n, 16);
    assert SizeLine(Shortest(n), []) == Numeral(n, 16);
  }

  lemma {:induction false} PlainChunksAreGood(datas: seq<string>)
    requires [] !in datas && |Flatten(datas)| <= SIZE_MAX
    ensures Datas(WithoutExtensions(datas)) == datas && forall c :: c in WithoutExtensions(datas) ==> GoodChunk(c)
  {
    if datas != [] {
      assert datas[0] in datas && forall d :: d in datas[1..] ==> d in datas;
      PlainChunksAreGood(datas[1..]);
      NoExtensionIsGood(|datas[0]|);
      assert WithoutExtensions(datas)[1..] == WithoutExtensions(datas[1..]);
    }
  }

  lemma FeedPlainChunks(r: Receiver, datas: seq<string>)
    requires AtLine(r) && r.state == Chunked && r.reply.contentBytes == r.contentLength
    requires [] !in datas && r.contentLength + |Flatten(datas)| <= SIZE_MAX
    ensures Feed(Live(r), EncodeChunks(WithoutExtensions(datas), Shortest(0), []))
         == Live(AfterChunks(r, Flatten(datas)))
  {
    PlainChunksAreGood(datas);
    NoExtensionIsGood(0);
    FeedChunks(r, WithoutExtensions(datas), Shortest(0), []);
  }

  // ---------------------------------------------------------------- reading replies

  /** Ready for a reply of which nothing has arrived yet. */
  predicate AtReply(r: Receiver) {
    r.state == Status && r.line == [] && r.waiting != [] && r.reply == FRESH
    && r.contentLength == SIZE_MAX && !r.hasBody && !r.isChunked
  }

  /** The receiver between replies. */
  function Between(waiting: seq<bool>, finished: seq<Reply>): Receiver {
    Receiver(Status, [], SIZE_MAX, false, false, FRESH, waiting, finished)
  }

  /** Which headers come next. */
  predicate HeadersFor(q: Receiver, r: Receiver, w: WireReply)
    requires r.waiting != []
  {
    && AtLine(q) && q.state == (if !r.waiting[0] && w.status == 100 then Continue else ConnState.Header)
    && q.waiting == r.waiting && q.finished == r.finished
  }

  lemma BodiesOf(status: nat)
    ensures StatusHasBody(status) <==> !Bodyless(status)
  {
  }

  lemma StatusTaken(r: Receiver, w: WireReply) returns (h: Receiver)
    requires AtReply(r) && GoodNumbers(w)
    ensures StatusLine(r, StatusScan(w.major, w.minor, w.status)) == Live(h) && HeadersFor(h, r, w)
    ensures FrameIn(h) == Frame(SIZE_MAX, !r.waiting[0] && !Bodyless(w.status), false)
    ensures h.reply == HeadOf(w).(headers := [])
  {
    BodiesOf(w.status);
    h := StatusLine(r, StatusScan(w.major, w.minor, w.status)).r;
  }

  lemma FeedStatus(r: Receiver, w: WireReply) returns (h: Receiver)
    requires AtReply(r) && GoodNumbers(w)
    ensures Feed(Live(r), StatusText(w.major, w.minor, w.status, w.reason) + CRLF) == Live(h) && HeadersFor(h, r, w)
    ensures FrameIn(h) == Frame(SIZE_MAX, !r.waiting[0] && !Bodyless(w.status), false)
    ensures h.reply == HeadOf(w).(headers := [])
  {
    StatusReadBack(w.major, w.minor, w.status, w.reason);
    FeedText(r, StatusText(w.major, w.minor, w.status, w.reason));
    h := StatusTaken(r, w);
  }

  /** The receiver when all headers have come. */
  lemma FeedHead(r: Receiver, w: WireReply) returns (q: Receiver)
    requires AtReply(r) && GoodNumbers(w) && GoodHeaders(w.headers)
    ensures Feed(Live(r), Head(w)) == Live(q) && HeadersFor(q, r, w)
    ensures FrameIn(q) == FrameOf(w, r.waiting[0]) && q.reply == HeadOf(w)
  {
    var h := FeedStatus(r, w);
    FeedAppend(Live(r), StatusText(w.major, w.minor, w.status, w.reason) + CRLF, EncodeLines(Texts(w.headers)));
    FeedHeaders(h, w.headers);
    q := WithHeaders(h, Framed(FrameIn(h), w.headers), Texts(w.headers));
    assert h.reply.headers + Texts(w.headers) == Texts(w.headers);
  }

  /** Behind the headers, before a body. */
  lemma AtBody(r: Receiver, w: WireReply) returns (d: Receiver)
    requires AtReply(r) && GoodHead(w, r.waiting[0]) && FrameOf(w, r.waiting[0]).body
    ensures Feed(Live(r), Head(w) + CRLF) == Live(d) && d.line == []
    ensures d.waiting == r.waiting && d.finished == r.finished && d.reply == HeadOf(w)
    ensures if FrameOf(w, r.waiting[0]).chunked then d.state == Chunked && d.contentLength == 0
            else d.state == Data && d.contentLength == FrameOf(w, r.waiting[0]).length
  {
    var q := FeedHead(r, w);
    FeedAppend(Live(r), Head(w), CRLF);
    FeedEmptyLine(q);
    d := HeaderLine(q, []);
  }

  lemma FeedBodyless(r: Receiver, w: WireReply)
    requires AtReply(r) && GoodHead(w, r.waiting[0]) && !FrameOf(w, r.waiting[0]).body
    ensures Feed(Live(r), Head(w) + CRLF) == Live(Between(r.waiting[1..], r.finished + [HeadOf(w)]))
  {
    var q := FeedHead(r, w);
    FeedAppend(Live(r), Head(w), CRLF);
    FeedEmptyLine(q);
  }

  lemma FeedWholeBody(d: Receiver, body: string)
    requires d.waiting != [] && d.line == [] && d.state == Data && d.contentLength == |body| > 0
    requires d.reply.contentBytes == 0 && d.reply.body == []
    ensures Feed(Live(d), body)
            == Live(Between(d.waiting[1..], d.finished + [d.reply.(contentBytes := |body|, body := body)]))
  {
    FeedContent(d, body);
    assert d.reply.body + body == body;
  }

  lemma FeedLastLines(f: Receiver, trailers: seq<string>)
    requires AtLine(f) && f.state == Footer && f.reply.footers == []
    requires GoodTrailers(trailers)
    ensures Feed(Live(f), EncodeLines(trailers) + CRLF)
            == Live(Between(f.waiting[1..], f.finished + [f.reply.(footers := trailers)]))
  {
    FeedAppend(Live(f), EncodeLines(trailers), CRLF);
    FeedTrailers(f, trailers);
    assert f.reply.footers + trailers == trailers;
    FeedEmptyLine(f.(reply := f.reply.(footers := trailers)));
  }

  lemma AfterTrailers(c: Receiver, body: string, trailers: seq<string>)
    requires c.waiting != [] && c.reply.contentBytes == 0 && c.reply.body == []
    ensures var f := AfterChunks(c, body);
      Between(f.waiting[1..], f.finished + [f.reply.(footers := trailers)])
      == Between(c.waiting[1..], c.finished + [c.reply.(body := body, contentBytes := |body|, footers := trailers)])
  {
    assert [] + body == body;
  }

  lemma FeedAllChunks(c: Receiver, b: Body)
    requires AtLine(c) && c.state == Chunked && c.contentLength == 0
    requires c.reply.contentBytes == 0 && c.reply.footers == [] && b.InChunks? && GoodChunks(b)
    ensures var f := AfterChunks(c, Joined(b.chunks));
      Feed(Live(c), BodyPart(b)) == Live(Between(f.waiting[1..], f.finished + [f.reply.(footers := b.trailers)]))
  {
    var chunks, last := EncodeChunks(b.chunks, b.lastSize, b.lastExtension), EncodeLines(b.trailers) + CRLF;
    var f := AfterChunks(c, Joined(b.chunks));
    FeedChunks(c, b.chunks, b.lastSize, b.lastExtension);
    FeedLastLines(f, b.trailers);
    FeedThen(Live(c), chunks, Live(f), last, Feed(Live(f), last));
  }

  lemma FeedChunkedBody(c: Receiver, b: Body)
    requires AtLine(c) && c.state == Chunked && c.contentLength == 0
    requires c.reply.contentBytes == 0 && c.reply.body == [] && c.reply.footers == [] && b.InChunks? && GoodChunks(b)
    ensures Feed(Live(c), BodyPart(b))
            == Live(Between(c.waiting[1..], c.finished + [c.reply.(body := Joined(b.chunks),
                    contentBytes := |Joined(b.chunks)|, footers := b.trailers)]))
  {
    FeedAllChunks(c, b);
    AfterTrailers(c, Joined(b.chunks), b.trailers);
  }

  lemma {:induction false} StaysBodyless(f: Frame, headers: seq<Header>)
    requires !f.body
    ensures !Framed(f, headers).body
    decreases |headers|
  {
    if headers != [] {
      assert [headers[0]][1..] == [] && headers == [headers[0]] + headers[1..];
      FramedOn(f, headers[0], headers[1..]);
      StaysBodyless(Framed(f, [headers[0]]), headers[1..]);
    }
  }

  /** A body that is announced is not empty. */
  lemma {:induction false} BodyHasLength(f: Frame, headers: seq<Header>)
    requires f.body ==> f.length > 0
    ensures Framed(f, headers).body ==> Framed(f, headers).length > 0
    decreases |headers|
  {
    if headers != [] {
      assert [headers[0]][1..] == [] && headers == [headers[0]] + headers[1..];
      FramedOn(f, headers[0], headers[1..]);
      BodyHasLength(Framed(f, [headers[0]]), headers[1..]);
    }
  }

  /** One reply, read back; the next byte is the first of the next reply. */
  lemma FeedReply(r: Receiver, w: WireReply)
    requires AtReply(r) && WellFormed(w, r.waiting[0])
    ensures Feed(Live(r), Encode(w)) == Live(Between(r.waiting[1..], r.finished + [Meaning(w)]))
  {
    if w.body.NoBody? {
      FeedBodyless(r, w);
      assert Head(w) + CRLF + [] == Head(w) + CRLF;
    } else {
      var d := AtBody(r, w);
      FeedAppend(Live(r), Head(w) + CRLF, BodyPart(w.body));
      if w.body.Sized? {
        BodyHasLength(Frame(SIZE_MAX, !r.waiting[0] && !Bodyless(w.status), false), w.headers);
        FeedWholeBody(d, w.body.body);
      } else {
        FeedChunkedBody(d, w.body);
      }
    }
  }

  /** Well-formed replies to the calls that wait for them. */
  predicate AllWellFormed(ws: seq<WireReply>, heads: seq<bool>) {
    ws != [] ==> heads != [] && WellFormed(ws[0], heads[0]) && AllWellFormed(ws[1..], heads[1..])
  }

  function Meanings(ws: seq<WireReply>): seq<Reply> {
    if ws == [] then [] else [Meaning(ws[0])] + Meanings(ws[1..])
  }

  lemma {:induction false} EnoughCalls(ws: seq<WireReply>, heads: seq<bool>)
    requires AllWellFormed(ws, heads)
    ensures |ws| <= |heads|
  {
    if ws != [] {
      EnoughCalls(ws[1..], heads[1..]);
    }
  }

  /** The receiver after these replies. */
  function AfterAll(heads: seq<bool>, finished: seq<Reply>, ws: seq<WireReply>): Receiver
    requires |ws| <= |heads|
  {
    Between(heads[|ws|..], finished + Meanings(ws))
  }

  lemma AfterFirst(heads: seq<bool>, finished: seq<Reply>, ws: seq<WireReply>)
    requires ws != [] && |ws| <= |heads|
    ensures AfterAll(heads, finished, ws) == AfterAll(heads[1..], finished + [Meaning(ws[0])], ws[1..])
  {
    assert finished + Meanings(ws) == finished + [Meaning(ws[0])] + Meanings(ws[1..]);
    assert heads[1..][|ws| - 1..] == heads[|ws|..];
  }

  /** Pipelined replies, read back in order. */
  lemma {:induction false} FeedPipeline(heads: seq<bool>, finished: seq<Reply>, ws: seq<WireReply>)
    requires AllWellFormed(ws, heads) && |ws| <= |heads|
    ensures Feed(Live(Between(heads, finished)), EncodeAll(ws)) == Live(AfterAll(heads, finished, ws))
    decreases |ws|
  {
    if ws == [] {
      assert finished + Meanings(ws) == finished && heads[0..] == heads;
    } else {
      FeedReply(Between(heads, finished), ws[0]);
      FeedAppend(Live(Between(heads, finished)), Encode(ws[0]), EncodeAll(ws[1..]));
      FeedPipeline(heads[1..], finished + [Meaning(ws[0])], ws[1..]);
      AfterFirst(heads, finished, ws);
    }
  }

  /** Well-formed replies to the calls that wait for them are delivered to these calls
      exactly, however the stream is cut into reads. */
  lemma PipelineInAnyFragments(heads: seq<bool>, ws: seq<WireReply>, parts: seq<string>)
    requires AllWellFormed(ws, heads) && Flatten(parts) == EncodeAll(ws)
    ensures |ws| <= |heads|
    ensures FeedAll(Live(Between(heads, [])), parts) == Live(Between(heads[|ws|..], Meanings(ws)))
  {
    EnoughCalls(ws, heads);
    FeedAllIsFeed(Live(Between(heads, [])), parts);
    FeedPipeline(heads, [], ws);
    assert [] + Meanings(ws) == Meanings(ws);
  }

  /** Bytes for which no call waits are not expected. */
  lemma NothingMoreExpected(heads: seq<bool>, ws: seq<WireReply>, more: string)
    requires AllWellFormed(ws, heads) && |ws| == |heads| && more != []
    ensures Feed(Live(Between(heads, [])), EncodeAll(ws) + more) == AssertFailed
  {
    FeedAppend(Live(Between(heads, [])), EncodeAll(ws), more);
    FeedPipeline(heads, [], ws);
    FeedStuck(AssertFailed, more[1..]);
  }

  /** Nor is the end of the connection, when no call waits. */
  lemma NoEndExpected(heads: seq<bool>, ws: seq<WireReply>)
    requires AllWellFormed(ws, heads) && |ws| == |heads|
    ensures EndOfFile(Feed(Live(Between(heads, [])), EncodeAll(ws))) == Crashed
  {
    FeedPipeline(heads, [], ws);
  }

  /** An interim reply with status 100 does not end with the empty line behind its headers: the
      status line of the reply that follows it, and the headers of that, are taken for more of its
      headers, and the call is told of a reply with status 100. */
  lemma InterimSwallowsFinal(r: Receiver, w: WireReply, final: WireReply)
    requires AtReply(r) && !r.waiting[0] && w.status == 100 && GoodNumbers(w) && GoodHeaders(w.headers)
    requires GoodNumbers(final) && GoodHeaders(final.headers)
    ensures Feed(Live(r), Head(w) + CRLF + (Head(final) + CRLF))
         == Live(Between(r.waiting[1..], r.finished + [HeadOf(w).(headers := Texts(w.headers)
                 + ([StatusText(final.major, final.minor, final.status, final.reason)] + Texts(final.headers)))]))
  {
    var c := BehindInterim(r, w);
    FinalIsMore(c, final);
    FeedAppend(Live(r), Head(w) + CRLF, Head(final) + CRLF);
  }

  /** A status line among headers, and what follows it. */
  lemma FinalIsMore(c: Receiver, final: WireReply)
    requires AtLine(c) && c.state == ConnState.Header && !c.hasBody && GoodNumbers(final) && GoodHeaders(final.headers)
    ensures var line := StatusText(final.major, final.minor, final.status, final.reason);
      Feed(Live(c), Head(final) + CRLF) == Live(Between(c.waiting[1..], c.finished + [
        c.reply.(headers := c.reply.headers + ([line] + Texts(final.headers)))]))
  {
    var line := StatusText(final.major, final.minor, final.status, final.reason);
    var headers := [Plain(line)] + final.headers;
    StatusIsPlain(final);
    FeedHeaders(c, headers);
    StaysBodyless(FrameIn(c), headers);
    assert headers[1..] == final.headers && Texts(headers) == [line] + Texts(final.headers);
    assert Texts(headers)[1..] == Texts(final.headers);
    FeedAppend(Live(c), Head(final), CRLF);
    FeedEmptyLine(WithHeaders(c, Framed(FrameIn(c), headers), Texts(headers)));
  }

  lemma BehindInterim(r: Receiver, w: WireReply) returns (c: Receiver)
    requires AtReply(r) && !r.waiting[0] && w.status == 100 && GoodNumbers(w) && GoodHeaders(w.headers)
    ensures Feed(Live(r), Head(w) + CRLF) == Live(c) && AtLine(c) && c.state == ConnState.Header && !c.hasBody
    ensures c.waiting == r.waiting && c.finished == r.finished && c.reply == HeadOf(w)
  {
    var q := FeedHead(r, w);
    FeedAppend(Live(r), Head(w), CRLF);
    StaysBodyless(Frame(SIZE_MAX, false, false), w.headers);
    FeedEmptyLine(q);
    c := q.(state := ConnState.Header);
  }

  lemma StatusIsPlain(w: WireReply)
    requires GoodNumbers(w)
    ensures GoodHeader(Plain(StatusText(w.major, w.minor, w.status, w.reason)))
  {
    var line := StatusText(w.major, w.minor, w.status, w.reason);
    assert line[0] == 'H';
    assert |line| >= 15 ==> line[..15][0] == 'H';
    assert |line| >= 18 ==> line[..18][0] == 'H';
  }

  /** Without a length, or with one that is not reached, the rest of the connection is the body. */
  lemma CloseDelimited(heads: seq<bool>, finished: seq<Reply>, w: WireReply, body: string)
    requires heads != [] && GoodHead(w, heads[0]) && FrameOf(w, heads[0]).body && !FrameOf(w, heads[0]).chunked
    requires |body| < FrameOf(w, heads[0]).length
    ensures EndOfFile(Feed(Live(Between(heads, finished)), Head(w) + CRLF + body))
            == Finished(finished + [HeadOf(w).(contentBytes := |body|, body := body)])
  {
    var r := Between(heads, finished);
    var d := AtBody(r, w);
    FeedAppend(Live(r), Head(w) + CRLF, body);
    FeedOpenBody(d, body);
  }

  lemma FeedOpenBody(d: Receiver, body: string)
    requires d.waiting != [] && d.state == Data && |body| < d.contentLength
    requires d.reply.contentBytes == 0 && d.reply.body == []
    ensures Feed(Live(d), body) == Live(d.(reply := d.reply.(contentBytes := |body|, body := body)))
  {
    if body != [] {
      FeedContent(d, body);
      assert d.reply.body + body == body;
    }
  }
}
