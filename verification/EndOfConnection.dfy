/** What httperf makes of a connection that ends: in the middle of a reply's body that has no
    chunks it takes the reply to be complete, even if less has come than was announced. */
module EndOfConnection {
  import opened Numerals
  import opened ReplyStream
  import opened WireReplies

  // ---------------------------------------------------------------- replies end one by one

  predicate AtStart(r: Receiver) {
    r.state == Status && r.line == []
  }

  /** The same reply goes on, of which there are n bytes of content or more. */
  predicate GoesOn(r: Receiver, q: Receiver, n: nat) {
    q.finished == r.finished && q.waiting == r.waiting && q.reply.contentBytes >= n
  }

  /** It has been finished with so much content, and perhaps others after it. */
  predicate Finishes(r: Receiver, q: Receiver, n: nat) {
    && |q.finished| > |r.finished| && q.finished[..|r.finished|] == r.finished
    && q.finished[|r.finished|].contentBytes >= n
  }

  predicate HasChunks(r: Receiver) {
    r.state == Chunked || r.state == Footer
  }

  function ContentAfter(r: Receiver): nat {
    r.reply.contentBytes + if r.state == Data then 1 else 0
  }

  lemma HeaderLineGoesOn(r: Receiver, text: string)
    requires r.state in {Header, Continue}
    ensures GoesOn(r, HeaderLine(r, text), r.reply.contentBytes) && HeaderLine(r, text).state != Status
  {
  }

  lemma EndLineGoesOn(r: Receiver, text: string)
    requires r.waiting != [] && EndLine(r, text).Live?
    ensures GoesOn(r, EndLine(r, text).r, r.reply.contentBytes) && EndLine(r, text).r.state != Status
    ensures r.state in {Chunked, Footer} ==> EndLine(r, text).r.state in {Chunked, Footer, Done}
  {
    if r.state in {Header, Continue} {
      HeaderLineGoesOn(r, text);
    }
  }

  lemma AddToLineGoesOn(r: Receiver, b: char)
    requires r.waiting != [] && AddToLine(r, b).Live?
    ensures GoesOn(r, AddToLine(r, b).r, r.reply.contentBytes) && !AtStart(AddToLine(r, b).r)
    ensures r.state in {Chunked, Footer} ==> AddToLine(r, b).r.state in {Chunked, Footer, Done}
  {
    if b == LF {
      EndLineGoesOn(r.(line := []), Chop(r.line + [b]));
    }
  }

  /** With one byte the reply goes on, or it is finished, it alone, and the next one starts. Content
      that has come does not go away, and in a body the byte adds to it. */
  lemma OneByte(r: Receiver, b: char)
    requires Step(Live(r), b).Live?
    ensures var q := Step(Live(r), b).r;
      || (GoesOn(r, q, ContentAfter(r)) && !AtStart(q) && (HasChunks(r) ==> HasChunks(q)))
      || (Finishes(r, q, ContentAfter(r)) && |q.finished| == |r.finished| + 1)
  {
    if !InBody(r) {
      AddToLineGoesOn(r, b);
    }
  }

  lemma {:induction false} ManyBytes(r: Receiver, s: string)
    requires Feed(Live(r), s).Live?
    ensures var q, n := Feed(Live(r), s).r, if s == [] then r.reply.contentBytes else ContentAfter(r);
      || (GoesOn(r, q, n) && (s != [] ==> !AtStart(q)) && (HasChunks(r) ==> HasChunks(q)))
      || Finishes(r, q, n)
    decreases |s|
  {
    if s != [] {
      if !Step(Live(r), s[0]).Live? {
        FeedStuck(Step(Live(r), s[0]), s[1..]);
      }
      OneByte(r, s[0]);
      ManyBytes(Step(Live(r), s[0]).r, s[1..]);
    }
  }

  /** A prefix of what has been fed without trouble. */
  lemma PrefixIsLive(v: View, a: string, b: string)
    requires Feed(v, a + b).Live?
    ensures Feed(v, a).Live? && Feed(Feed(v, a), b) == Feed(v, a + b)
  {
    FeedAppend(v, a, b);
    if !Feed(v, a).Live? {
      FeedStuck(Feed(v, a), b);
    }
  }

  /** Bytes that finish one reply, and lead to the start of the next, do so with the last of them. */
  lemma LastByteFinishes(r: Receiver, a: string, b: string)
    requires Feed(Live(r), a + b).Live? && b != []
    requires var q := Feed(Live(r), a + b).r; AtStart(q) && |q.finished| == |r.finished| + 1
    ensures Feed(Live(r), a).Live? && GoesOn(r, Feed(Live(r), a).r, r.reply.contentBytes)
  {
    PrefixIsLive(Live(r), a, b);
    ManyBytes(r, a);
    ManyBytes(Feed(Live(r), a).r, b);
  }

  // ---------------------------------------------------------------- replies that are cut short

  /** A reply up to the empty line behind its headers. */
  function HeaderPart(w: WireReply): string {
    Head(w) + CRLF
  }

  lemma Associative(a: string, b: string, c: string)
    ensures a + (b + c) == a + b + c
  {
  }

  /** A well-formed reply of which only a part comes before the connection ends. */
  lemma NothingFinished(r: Receiver, w: WireReply, a: string, b: string)
    requires AtReply(r) && WellFormed(w, r.waiting[0]) && Encode(w) == a + b && b != []
    ensures Feed(Live(r), a).Live? && GoesOn(r, Feed(Live(r), a).r, 0)
  {
    FeedReply(r, w);
    LastByteFinishes(r, a, b);
  }

  /** Whoever is in a body shows it with the next byte. */
  lemma BodyShows(r: Receiver, a: string, b: string)
    requires Feed(Live(r), a + b).Live? && b != []
    requires Feed(Live(r), a).Live? && GoesOn(r, Feed(Live(r), a).r, 0) && Feed(Live(r), a).r.state == Data
    ensures var q := Feed(Live(r), a + b).r; GoesOn(r, q, 1) || Finishes(r, q, 1)
  {
    FeedAppend(Live(r), a, b);
    ManyBytes(Feed(Live(r), a).r, b);
  }

  lemma NoContent(b: Body)
    requires BodyPart(b) == []
    ensures Content(b) == []
  {
  }

  lemma HeadersShowNoContent(r: Receiver, w: WireReply)
    requires AtReply(r) && WellFormed(w, r.waiting[0])
    ensures Feed(Live(r), HeaderPart(w)).Live?
    ensures var h := Feed(Live(r), HeaderPart(w)).r; !GoesOn(r, h, 1) && !Finishes(r, h, 1)
  {
    if BodyPart(w.body) == [] {
      assert Encode(w) == HeaderPart(w);
      FeedReply(r, w);
      NoContent(w.body);
    } else {
      var h := AtBody(r, w);
    }
  }

  /** The connection ends before the body, or in it. */
  lemma EndsInHeaders(r: Receiver, w: WireReply, a: string, b: string)
    requires AtReply(r) && WellFormed(w, r.waiting[0]) && HeaderPart(w) == a + b && b != []
    ensures Feed(Live(r), a).Live? && GoesOn(r, Feed(Live(r), a).r, 0) && Feed(Live(r), a).r.state != Data
  {
    Associative(a, b, BodyPart(w.body));
    NothingFinished(r, w, a, b + BodyPart(w.body));
    HeadersShowNoContent(r, w);
    if Feed(Live(r), a).r.state == Data {
      BodyShows(r, a, b);
    }
  }

  lemma EndsInBody(r: Receiver, w: WireReply, a: string, b: string)
    requires AtReply(r) && WellFormed(w, r.waiting[0]) && BodyPart(w.body) == a + b && b != []
    ensures var v := Feed(Live(r), HeaderPart(w) + a);
      && v.Live? && GoesOn(r, v.r, 0) && (w.body.InChunks? ==> HasChunks(v.r))
      && (w.body.Sized? ==> v.r.state == Data && v.r.reply == CutReply(w, |a|))
  {
    Associative(HeaderPart(w), a, b);
    NothingFinished(r, w, HeaderPart(w) + a, b);
    var h := AtBody(r, w);
    FeedAppend(Live(r), HeaderPart(w), a);
    if w.body.InChunks? {
      ManyBytes(h, a);
    } else {
      SizedSoFar(h, w, a, b);
    }
  }

  lemma SizedSoFar(h: Receiver, w: WireReply, a: string, b: string)
    requires w.body.Sized? && w.body.body == a + b && b != []
    requires h.waiting != [] && h.state == Data && h.contentLength == |w.body.body|
    requires h.reply == HeadOf(w)
    ensures var v := Feed(Live(h), a); v.Live? && v.r.state == Data && v.r.reply == CutReply(w, |a|)
  {
    assert w.body.body[..|a|] == a;
    if a != [] {
      FeedOpenBody(h, a);
    }
  }

  lemma CutOf(a: string, b: string, n: nat)
    requires n < |a + b|
    ensures if n < |a| then (a + b)[..n] == a[..n] && a == a[..n] + a[n..]
            else (a + b)[..n] == a + b[..n - |a|] && b == b[..n - |a|] + b[n - |a|..]
  {
  }

  /** What a call is told about a reply with k bytes of its body. */
  function CutReply(w: WireReply, k: nat): Reply
    requires w.body.Sized? && k <= |w.body.body|
  {
    HeadOf(w).(contentBytes := k, body := w.body.body[..k])
  }

  /** A connection that ends within a well-formed reply has failed, unless the reply has an announced
      length and all of its headers have come. Then the call is told that its reply is complete,
      with so much of the body as there is. */
  lemma CutShort(heads: seq<bool>, finished: seq<Reply>, w: WireReply, n: nat)
    requires heads != [] && WellFormed(w, heads[0]) && n < |Encode(w)|
    ensures EndOfFile(Feed(Live(Between(heads, finished)), Encode(w)[..n]))
            == if w.body.Sized? && |HeaderPart(w)| <= n
               then Finished(finished + [CutReply(w, n - |HeaderPart(w)|)]) else ConnFailed(finished)
  {
    var r, head, body := Between(heads, finished), HeaderPart(w), BodyPart(w.body);
    CutOf(head, body, n);
    if n < |head| {
      EndsInHeaders(r, w, head[..n], head[n..]);
    } else {
      EndsInBody(r, w, body[..n - |head|], body[n - |head|..]);
    }
  }
}
