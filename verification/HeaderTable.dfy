/** How mod_mem_cache stores a table of headers: all keys and values in one block of memory, each
    ended by a NUL, with pointers to them. */
module HeaderTable {

  const NUL: char := '\0'

  datatype Header = Header(key: string, val: string)

  /** A cache_header_tbl_t: two pointers into the block, as offsets. */
  datatype Cell = Cell(hdr: nat, val: nat)

  datatype Status = Success | NoMemory

  predicate NulFree(s: string) {
    NUL !in s
  }

  /** C strings have no NUL inside. */
  predicate CStrings(elts: seq<Header>) {
    forall i :: 0 <= i < |elts| ==> NulFree(elts[i].key) && NulFree(elts[i].val)
  }

  /** The block for the first n headers of a table. */
  function Image(elts: seq<Header>, n: nat): string
    requires n <= |elts|
  {
    if n == 0 then "" else Image(elts, n - 1) + (elts[n - 1].key + [NUL]) + (elts[n - 1].val + [NUL])
  }

  /** How long it is. */
  function Offset(elts: seq<Header>, n: nat): nat
    requires n <= |elts|
  {
    if n == 0 then 0 else Offset(elts, n - 1) + (|elts[n - 1].key| + 1) + (|elts[n - 1].val| + 1)
  }

  /** Where a key and a value are in it. */
  function CellAt(elts: seq<Header>, i: nat): Cell
    requires i < |elts|
  {
    Cell(Offset(elts, i), Offset(elts, i) + |elts[i].key| + 1)
  }

  predicate CellsOf(elts: seq<Header>, cells: seq<Cell>) {
    |cells| == |elts| && forall i :: 0 <= i < |elts| ==> cells[i] == CellAt(elts, i)
  }

  lemma {:induction false} OffsetIsLength(elts: seq<Header>, n: nat)
    requires n <= |elts|
    ensures |Image(elts, n)| == Offset(elts, n)
  {
    if n > 0 {
      OffsetIsLength(elts, n - 1);
    }
  }

  /** There is a NUL from this place on. */
  predicate Points(block: string, at: nat) {
    exists j :: at <= j < |block| && block[j] == NUL
  }

  /** strlen, from a place on. */
  function StrLen(block: string, at: nat): (n: nat)
    requires Points(block, at)
    ensures at + n < |block| && block[at + n] == NUL && NulFree(block[at..at + n])
    decreases |block| - at
  {
    if block[at] == NUL then 0 else 1 + StrLen(block, at + 1)
  }

  /** The C string that a pointer into a block leads to. */
  function StringAt(block: string, at: nat): string
    requires Points(block, at)
  {
    block[at..at + StrLen(block, at)]
  }

  /** A cell's pointers lead to these strings. */
  predicate Holds(block: string, c: Cell, key: string, val: string) {
    && Points(block, c.hdr) && StringAt(block, c.hdr) == key
    && Points(block, c.val) && StringAt(block, c.val) == val
  }

  lemma {:induction false} ImagePrefix(elts: seq<Header>, i: nat, n: nat)
    requires i <= n <= |elts|
    ensures Image(elts, i) <= Image(elts, n) && Offset(elts, i) <= Offset(elts, n)
    decreases n
  {
    if i < n {
      ImagePrefix(elts, i, n - 1);
    }
  }

  lemma {:induction false} StringIsFound(block: string, at: nat, s: string)
    requires NulFree(s) && at + |s| < |block| && block[at..at + |s| + 1] == s + [NUL]
    ensures Points(block, at) && StrLen(block, at) == |s|
    decreases |s|
  {
    assert block[at + |s|] == (s + [NUL])[|s|];
    if |s| > 0 {
      assert block[at] == (s + [NUL])[0] == s[0];
      assert block[at + 1..at + 1 + |s[1..]| + 1] == block[at..at + |s| + 1][1..] == s[1..] + [NUL];
      StringIsFound(block, at + 1, s[1..]);
    }
  }

  lemma InTheMiddle(before: string, s: string, after: string)
    requires NulFree(s)
    ensures var block := before + (s + [NUL]) + after;
      Points(block, |before|) && StringAt(block, |before|) == s
  {
    var block := before + (s + [NUL]) + after;
    assert block[|before|..|before| + |s| + 1] == s + [NUL];
    StringIsFound(block, |before|, s);
    assert block[|before|..|before| + |s|] == s;
  }

  lemma TwoInTheMiddle(block: string, before: string, key: string, val: string, after: string, c: Cell)
    requires NulFree(key) && NulFree(val) && block == before + (key + [NUL]) + (val + [NUL]) + after
    requires c == Cell(|before|, |before| + |key| + 1)
    ensures Holds(block, c, key, val)
  {
    InTheMiddle(before, key, (val + [NUL]) + after);
    assert before + (key + [NUL]) + ((val + [NUL]) + after) == block;
    InTheMiddle(before + (key + [NUL]), val, after);
  }

  lemma ImageSplit(elts: seq<Header>, i: nat) returns (before: string, after: string)
    requires i < |elts|
    ensures |before| == Offset(elts, i)
    ensures Image(elts, |elts|) == before + (elts[i].key + [NUL]) + (elts[i].val + [NUL]) + after
  {
    ImagePrefix(elts, i + 1, |elts|);
    OffsetIsLength(elts, i);
    before := Image(elts, i);
    var block, part := Image(elts, |elts|), Image(elts, i + 1);
    after := block[|part|..];
    assert block == part + after;
  }

  /** Each cell points to its key and its value. */
  lemma CellsHoldTheirStrings(elts: seq<Header>, i: nat, block: string)
    requires i < |elts| && CStrings(elts) && block == Image(elts, |elts|)
    ensures Holds(block, CellAt(elts, i), elts[i].key, elts[i].val)
  {
    var before, after := ImageSplit(elts, i);
    TwoInTheMiddle(block, before, elts[i].key, elts[i].val, after, CellAt(elts, i));
  }

  /** None reaches into another one. */
  lemma CellsAreDisjoint(elts: seq<Header>, i: nat, j: nat)
    requires i < j < |elts|
    ensures CellAt(elts, i).hdr + |elts[i].key| < CellAt(elts, i).val
    ensures CellAt(elts, i).val + |elts[i].val| < CellAt(elts, j).hdr
  {
    ImagePrefix(elts, i + 1, j);
  }

  /** memcpy of a string with its NUL. */
  method CopyString(buf: array<char>, at: nat, s: string)
    requires at + |s| + 1 <= buf.Length
    modifies buf
    ensures buf[..at + |s| + 1] == old(buf[..at]) + (s + [NUL])
  {
    var k := 0;
    while k < |s|
      invariant k <= |s| && buf[..at] == old(buf[..at]) && buf[at..at + k] == s[..k]
    {
      buf[at + k] := s[k];
      k := k + 1;
    }
    buf[at + |s|] := NUL;
    assert buf[at..at + |s|] == s[..|s|] == s;
    assert buf[..at + |s| + 1] == buf[..at] + (buf[at..at + |s|] + [NUL]);
  }

  method CopyHeader(buf: array<char>, at: nat, h: Header) returns (cell: Cell, next: nat)
    requires at + |h.key| + 1 + |h.val| + 1 <= buf.Length
    modifies buf
    ensures cell == Cell(at, at + |h.key| + 1) && next == at + |h.key| + 1 + |h.val| + 1
    ensures buf[..next] == old(buf[..at]) + (h.key + [NUL]) + (h.val + [NUL])
  {
    next := at;
    var hdr := next;
    CopyString(buf, next, h.key);
    next := next + (|h.key| + 1);
    cell := Cell(hdr, next);
    CopyString(buf, next, h.val);
    next := next + (|h.val| + 1);
  }

  /** The second pass has copied this many headers. */
  ghost predicate Filled(elts: seq<Header>, n: nat, cells: seq<Cell>, idx: nat, block: string)
    requires n <= |elts|
  {
    && |block| == Offset(elts, |elts|) && idx == Offset(elts, n) <= |block| && block[..idx] == Image(elts, n)
    && |cells| == n && forall j :: 0 <= j < n ==> cells[j] == CellAt(elts, j)
  }

  /** serialize_table; the flags say whether its two calls of malloc succeed. */
  method SerializeTable(elts: seq<Header>, cellsFit: bool, blockFits: bool)
    returns (status: Status, nelts: nat, cells: seq<Cell>, buf: array?<char>)
    ensures nelts == |elts|
    ensures status.NoMemory? <==> |elts| > 0 && (!cellsFit || !blockFits)
    ensures status.NoMemory? || |elts| == 0 ==> cells == [] && buf == null
    ensures status.Success? && |elts| > 0 ==>
              buf != null && fresh(buf) && buf[..] == Image(elts, |elts|) && CellsOf(elts, cells)
  {
    nelts, status, cells, buf := |elts|, Success, [], null;
    if |elts| == 0 {
      return;
    }
    if !cellsFit {
      status := NoMemory;
      return;
    }
    var len := CountBytes(elts);
    if !blockFits {
      status := NoMemory;
      return;
    }
    var block := new char[len];
    var idx := 0;
    var i := 0;
    while i < |elts|
      invariant i <= |elts| && 0 <= idx && Filled(elts, i, cells, idx, block[..]) && len == block.Length
    {
      ImagePrefix(elts, i + 1, |elts|);
      var cell;
      cell, idx := CopyHeader(block, idx, elts[i]);
      cells := cells + [cell];
      i := i + 1;
    }
    assert block[..idx] == block[..];
    buf := block;
  }

  /** The first pass: the bytes that the second pass will write. */
  method CountBytes(elts: seq<Header>) returns (len: nat)
    ensures len == Offset(elts, |elts|)
  {
    len := 0;
    var i := 0;
    while i < |elts|
      invariant i <= |elts| && len == Offset(elts, i)
    {
      len := len + |elts[i].key|;
      len := len + |elts[i].val|;
      len := len + 2;
      i := i + 1;
    }
  }

  /** unserialize_table, for what serialize_table has made of a table: it gives the table back. */
  method UnserializeTable(cells: seq<Cell>, buf: array<char>, ghost elts: seq<Header>) returns (t: seq<Header>)
    requires CStrings(elts) && buf[..] == Image(elts, |elts|) && CellsOf(elts, cells)
    ensures t == elts
  {
    t := [];
    var i := 0;
    while i < |cells|
      invariant i <= |cells| && t == elts[..i]
    {
      CellsHoldTheirStrings(elts, i, buf[..]);
      t := t + [Header(StringAt(buf[..], cells[i].hdr), StringAt(buf[..], cells[i].val))];
      i := i + 1;
    }
  }
}
