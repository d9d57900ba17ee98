/** The line buffer holds 1023 characters. Up to that length, get_line finds the same line
    however its bytes arrive; beyond it, what it finds depends on where the reads are cut. */
module LongLines {
  import opened ReplyStream

  function TotalLength(parts: seq<string>): nat {
    if parts == [] then 0 else |parts[0]| + TotalLength(parts[1..])
  }

  /** The lines that successive calls of get_line complete. */
  function LinesOf(line: string, parts: seq<string>): seq<string>
    requires |line| <= LINE_BUF_SIZE - 2
    decreases TotalLength(parts), |parts|
  {
    if parts == [] then []
    else if parts[0] == [] then LinesOf(line, parts[1..])
    else
      var got := ReadLine(line, parts[0]);
      var rest := [parts[0][got.used..]] + parts[1..];
      assert rest[1..] == parts[1..];
      if got.complete then [got.line] + LinesOf([], rest) else LinesOf(got.line, rest)
  }

  /** A CR before the LF does not belong to the line. */
  function WithoutCr(text: string): string {
    if text != [] && text[|text| - 1] == CR then text[..|text| - 1] else text
  }

  lemma ChopIsWithoutCr(text: string)
    ensures Chop(text + [LF]) == WithoutCr(text)
  {
    assert (text + [LF])[..|text|] == text;
  }

  /** A line that fits is found whole, in every fragmentation. */
  lemma {:induction false} ShortLine(line: string, text: string, parts: seq<string>)
    requires LF !in text && NUL !in text && |line + text| <= LINE_BUF_SIZE - 2
    requires Flatten(parts) == text + [LF]
    ensures LinesOf(line, parts) == [WithoutCr(line + text)]
    decreases |parts|
  {
    var part, later := parts[0], parts[1..];
    if part == [] {
      ShortLine(line, text, later);
    } else if |part| <= |text| {
      var whole := part + Flatten(later);
      assert whole == text + [LF];
      assert part == whole[..|part|] && part == text[..|part|];
      var rest := text[|part|..];
      assert Flatten(later) == whole[|part|..] && Flatten(later) == rest + [LF];
      ReadLineThatFits(line, part, []);
      assert part + [] == part && line + part + rest == line + text;
      assert [part[|part|..]] + later == [[]] + later && ([[]] + later)[1..] == later;
      ShortLine(line + part, rest, later);
    } else {
      assert part + Flatten(later) == text + [LF];
      assert part == text + [LF];
      ReadLineThatFits(line, text, [LF]);
      ChopIsWithoutCr(line + text);
      assert Flatten(later) == [];
      assert ([[]] + later)[1..] == later;
      NoMoreLines([], later);
    }
  }

  lemma {:induction false} NoMoreLines(line: string, parts: seq<string>)
    requires |line| <= LINE_BUF_SIZE - 2 && Flatten(parts) == []
    ensures LinesOf(line, parts) == []
    decreases |parts|
  {
    if parts != [] {
      NoMoreLines(line, parts[1..]);
    }
  }

  lemma {:induction false} SomeLine(text: string)
    requires LF !in text && NUL !in text
    ensures LinesOf([], [text + [LF]]) != []
  {
    LineEndOf(text, [LF]);
    assert (text + [LF])[..|text| + 1] == text + [LF];
    assert [] + (text + [LF]) == text + [LF];
  }

  /** One read of a long line gives one line, cut to the size of the buffer, of which nothing is
      chopped; cutting the stream where the buffer is full gives at least two. */
  lemma LongLine(text: string)
    requires LF !in text && NUL !in text && |text| > LINE_BUF_SIZE - 2
    ensures var n := LINE_BUF_SIZE - 1;
            && LinesOf([], [text + [LF]]) == [text[..n]]
            && |LinesOf([], [text[..n], text[n..] + [LF]])| > 1
  {
    var n := LINE_BUF_SIZE - 1;
    var whole, first, last := text + [LF], text[..n], text[n..] + [LF];
    LineEndOf(text, [LF]);
    assert whole[..|whole|] == whole && [] + whole == whole;
    assert whole[|whole|..] == [];
    assert whole[..n] == first && LF !in first;
    NoMoreLines([], [[]]);
    assert LinesOf([], [whole]) == [ReadLine([], whole).line] + LinesOf([], [[]]);
    LineEndOf(first, []);
    assert first + [] == first && first[..n] == first && [] + first == first;
    var parts := [first, last];
    assert parts[1..] == [last] && [first[n..]] + parts[1..] == [[], last] && [[], last][1..] == [last];
    SomeLine(text[n..]);
    assert LinesOf([], parts) == [ReadLine([], first).line] + LinesOf([], [[], last]);
    assert LinesOf([], [[], last]) == LinesOf([], [last]);
  }

  /** Exactly the lines of at most 1023 characters, LF included, do not depend on fragmentation. */
  lemma FragmentationMattersForLongLines(text: string)
    requires LF !in text && NUL !in text
    ensures (forall parts, others :: Flatten(parts) == Flatten(others) == text + [LF] ==>
               LinesOf([], parts) == LinesOf([], others))
            <==> |text + [LF]| <= LINE_BUF_SIZE - 1
  {
    if |text| <= LINE_BUF_SIZE - 2 {
      assert [] + text == text;
      forall parts, others | Flatten(parts) == Flatten(others) == text + [LF]
        ensures LinesOf([], parts) == LinesOf([], others)
      {
        ShortLine([], text, parts);
        ShortLine([], text, others);
      }
    } else {
      var n := LINE_BUF_SIZE - 1;
      LongLine(text);
      var parts, others := [text + [LF]], [text[..n], text[n..] + [LF]];
      assert parts[1..] == [] && others[1..] == [text[n..] + [LF]] && others[1..][1..] == [];
      assert text[..n] + (text[n..] + [LF]) == text + [LF];
      assert others[1..] == [others[1]] && Flatten([others[1]]) == others[1] + Flatten([]);
      assert Flatten(others) == others[0] + others[1];
      assert Flatten(parts) == Flatten(others) == text + [LF];
    }
  }
}
