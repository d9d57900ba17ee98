/** The allocator of local ports in core.c: a bitmap with one bit per free port, searched by next
    fit from a cursor that is kept as a word and a mask. */
module PortPool {

  const MIN_IP_PORT: nat := 1024
  const MAX_IP_PORT: nat := 65535
  const WORDS: nat := 1008

  // ------------------------------------------------------------------ bits

  predicate Bit(w: bv64, b: bv6) {
    (w >> (b as bv64)) & 1 == 1
  }

  /** The number of a bit, if there is one; ffs returns one more, or 0. */
  datatype Found = Nothing | At(b: bv6)

  /** ffs, which takes an int, on the low half of a word: its lowest bit, from k on. */
  function Ffs(w: bv64, k: bv6): Found
    requires k <= 32
    decreases 32 - k as int
  {
    if k == 32 then Nothing else if Bit(w, k) then At(k) else Ffs(w, k + 1)
  }

  /** lffs: the upper half of a word takes a second call of ffs. */
  function Lffs(w: bv64): Found {
    match Ffs(w, 0)
    case At(b) => At(b)
    case Nothing =>
      match Ffs(w >> 32, 0)
      case At(b) => At(b + 32)
      case Nothing => Nothing
  }

  ghost predicate NoneIn(w: bv64, from: bv6, to: bv6) {
    forall c: bv6 :: from <= c < to ==> !Bit(w, c)
  }

  lemma {:induction false} FfsIsSet(w: bv64, k: bv6)
    requires k <= 32
    ensures Ffs(w, k).At? ==> k <= Ffs(w, k).b < 32 && Bit(w, Ffs(w, k).b)
    decreases 32 - k as int
  {
    if k < 32 && !Bit(w, k) {
      FfsIsSet(w, k + 1);
    }
  }

  lemma {:induction false} FfsIsLowest(w: bv64, k: bv6, c: bv6)
    requires k <= c < 32 && (Ffs(w, k).At? ==> c < Ffs(w, k).b)
    ensures !Bit(w, c)
    decreases 32 - k as int
  {
    if k < c {
      FfsIsLowest(w, k + 1, c);
    }
  }

  lemma UpperBit(w: bv64, c: bv6)
    requires c >= 32
    ensures Bit(w, c) == Bit(w >> 32, c - 32)
  {
  }

  ghost predicate ClearAbove(w: bv64, k: bv6) {
    forall c: bv6 :: c >= k ==> !Bit(w, c)
  }

  lemma ClearAboveNext(w: bv64, k: bv6)
    requires k < 63 && ClearAbove(w, k)
    ensures !Bit(w, k) && ClearAbove(w, k + 1)
  {
  }

  lemma TopBit(w: bv64)
    requires ClearAbove(w, 63)
    ensures w >> 63 == 0
  {
    assert !Bit(w, 63);
  }

  lemma NextBit(w: bv64, k: bv6)
    requires k < 63 && !Bit(w, k) && w >> ((k + 1) as bv64) == 0
    ensures w >> (k as bv64) == 0
  {
  }

  lemma {:induction false} ClearFrom(w: bv64, k: bv6)
    requires ClearAbove(w, k)
    ensures w >> (k as bv64) == 0
    decreases 63 - k as int
  {
    if k == 63 {
      TopBit(w);
    } else {
      ClearAboveNext(w, k);
      ClearFrom(w, k + 1);
      NextBit(w, k);
    }
  }

  lemma FfsFindsLowest(w: bv64)
    ensures match Ffs(w, 0)
            case At(b) => b < 32 && Bit(w, b) && NoneIn(w, 0, b)
            case Nothing => NoneIn(w, 0, 32)
  {
    FfsIsSet(w, 0);
    forall c: bv6 | c < 32 && (Ffs(w, 0).At? ==> c < Ffs(w, 0).b) ensures !Bit(w, c) {
      FfsIsLowest(w, 0, c);
    }
  }

  /** lffs finds the lowest bit of a word, if it is not 0. */
  lemma LffsIsLowest(w: bv64)
    ensures match Lffs(w)
            case At(b) => Bit(w, b) && NoneIn(w, 0, b)
            case Nothing => w == 0
  {
    var upper := w >> 32;
    FfsFindsLowest(w);
    FfsFindsLowest(upper);
    if Ffs(w, 0).Nothing? {
      forall c: bv6 | c >= 32 ensures Bit(w, c) == Bit(upper, c - 32) {
        UpperBit(w, c);
      }
      if Ffs(upper, 0).Nothing? {
        ClearFrom(w, 0);
      }
    }
  }

  // ------------------------------------------------------------------ masks

  /** All bits from c on; none for Past. */
  datatype Cursor = From(c: bv6) | Past

  predicate Within(cursor: Cursor, b: bv6) {
    cursor.From? && b >= cursor.c
  }

  function MaskOf(cursor: Cursor): bv64 {
    match cursor
    case From(c) => !((1 << (c as bv64)) - 1)
    case Past => 0
  }

  lemma AndBit(w: bv64, m: bv64, b: bv6)
    ensures Bit(w & m, b) == (Bit(w, b) && Bit(m, b))
  {
  }

  lemma MaskBit(c: bv6, b: bv6)
    ensures Bit(!((1 << (c as bv64)) - 1), b) == (b >= c)
  {
  }

  lemma MaskKeeps(w: bv64, cursor: Cursor, b: bv6)
    ensures Bit(w & MaskOf(cursor), b) == (Bit(w, b) && Within(cursor, b))
  {
    AndBit(w, MaskOf(cursor), b);
    ZeroHasNoBits(b);
    if cursor.From? {
      MaskBit(cursor.c, b);
    }
  }

  lemma SetBit(w: bv64, b: bv6, c: bv6)
    ensures Bit(w | (1 << (b as bv64)), c) == (c == b || Bit(w, c))
  {
  }

  lemma ClearBit(w: bv64, b: bv6, c: bv6)
    ensures Bit(w & !(1 << (b as bv64)), c) == (c != b && Bit(w, c))
  {
  }

  lemma ZeroHasNoBits(b: bv6)
    ensures !Bit(0, b)
  {
  }

  // ------------------------------------------------------------------ the pool

  function Port(i: nat, b: bv6): int {
    b as int + 64 * i + MIN_IP_PORT
  }

  predicate InRange(port: int) {
    MIN_IP_PORT <= port <= MAX_IP_PORT
  }

  /** Every port has its own bit in the map. */
  lemma PortsAreDistinct(i: nat, b: bv6, j: nat, c: bv6)
    requires i < WORDS && j < WORDS
    ensures InRange(Port(i, b)) && (Port(i, b) == Port(j, c) ==> i == j && b == c)
  {
    SmallBits(b);
    SmallBits(c);
    if b as int == c as int {
      assert b == c;
    }
  }

  lemma SmallBits(b: bv6)
    ensures 0 <= b as int < 64
  {
  }

  /** The word and bit of a port. */
  method Locate(port: int) returns (i: nat, b: bv6)
    requires InRange(port)
    ensures i < WORDS && Port(i, b) == port
  {
    i := (port - MIN_IP_PORT) / 64;
    var bit := (port - MIN_IP_PORT) % 64;
    b := bit as bv6;
  }

  /** A word shows which of its ports nobody has. */
  ghost predicate Shows(w: bv64, i: nat, held: set<int>) {
    forall b: bv6 :: Bit(w, b) <==> Port(i, b) !in held
  }

  lemma TakenFrom(w: bv64, i: nat, b: bv6, held: set<int>)
    requires i < WORDS && Shows(w, i, held)
    ensures Shows(w & !(1 << (b as bv64)), i, held + {Port(i, b)})
  {
    forall c: bv6 ensures Bit(w & !(1 << (b as bv64)), c) <==> Port(i, c) !in held + {Port(i, b)} {
      ClearBit(w, b, c);
      PortsAreDistinct(i, b, i, c);
    }
  }

  lemma PutBackTo(w: bv64, i: nat, b: bv6, held: set<int>)
    requires i < WORDS && Shows(w, i, held)
    ensures Shows(w | (1 << (b as bv64)), i, held - {Port(i, b)})
  {
    forall c: bv6 ensures Bit(w | (1 << (b as bv64)), c) <==> Port(i, c) !in held - {Port(i, b)} {
      SetBit(w, b, c);
      PortsAreDistinct(i, b, i, c);
    }
  }

  /** What happens to a port does not matter to other words. */
  lemma OtherWord(w: bv64, j: nat, i: nat, b: bv6, held: set<int>)
    requires i < WORDS && j < WORDS && i != j && Shows(w, j, held)
    ensures Shows(w, j, held + {Port(i, b)}) && Shows(w, j, held - {Port(i, b)})
  {
    forall c: bv6 ensures Port(j, c) != Port(i, b) {
      PortsAreDistinct(i, b, j, c);
    }
  }

  /** No bit of a word from the cursor on. */
  ghost predicate NoneFrom(w: bv64, cursor: Cursor) {
    forall b: bv6 :: Within(cursor, b) ==> !Bit(w, b)
  }

  /** A bit is the lowest of a word from the cursor on. */
  ghost predicate LowestFrom(w: bv64, cursor: Cursor, b: bv6) {
    Bit(w, b) && Within(cursor, b) && forall c: bv6 :: c < b && Within(cursor, c) ==> !Bit(w, c)
  }

  lemma MaskedWord(w: bv64, cursor: Cursor)
    ensures match Lffs(w & MaskOf(cursor))
            case At(b) => LowestFrom(w, cursor, b) && w & MaskOf(cursor) != 0
            case Nothing => NoneFrom(w, cursor) && w & MaskOf(cursor) == 0
  {
    LffsIsLowest(w & MaskOf(cursor));
    forall b: bv6 ensures Bit(w & MaskOf(cursor), b) == (Bit(w, b) && Within(cursor, b)) && !Bit(0, b) {
      MaskKeeps(w, cursor, b);
      ZeroHasNoBits(b);
    }
  }

  lemma AllOnes()
    ensures MaskOf(From(0)) == 0xffff_ffff_ffff_ffff
  {
  }

  /** The lowest bit of a word under a mask. */
  method LowestUnder(w: bv64, mask: bv64, ghost cursor: Cursor) returns (found: bool, b: bv6)
    requires mask == MaskOf(cursor)
    ensures if found then LowestFrom(w, cursor, b) else NoneFrom(w, cursor)
  {
    MaskedWord(w, cursor);
    var bit := Lffs(w & mask);
    found := w & mask != 0;
    b := if bit.At? then bit.b else 0;
  }

  lemma WordHasBit(w: bv64)
    requires NoneFrom(w, From(0))
    ensures w == 0
  {
    assert forall c: bv6 :: c >= 0 ==> Within(From(0), c);
    ClearFrom(w, 0);
  }

  /** A word is 0 exactly when all its ports are held. */
  lemma EmptyWord(w: bv64, i: nat, held: set<int>)
    requires Shows(w, i, held)
    ensures w == 0 <==> forall b: bv6 :: Port(i, b) in held
  {
    if w == 0 {
      forall b: bv6 ensures Port(i, b) in held {
        ZeroHasNoBits(b);
      }
    } else if forall b: bv6 :: Port(i, b) in held {
      forall c: bv6 ensures !Bit(w, c) {
        assert Port(i, c) in held;
      }
      WordHasBit(w);
    }
  }

  function Around(start: nat, d: nat): nat {
    if start + d >= WORDS then start + d - WORDS else start + d
  }

  class Pool {
    const words: array<bv64>
    var previous: nat
    var mask: bv64
    ghost var cursor: Cursor
    /** The ports that somebody has. */
    ghost var held: set<int>

    ghost predicate Valid()
      reads this, words
    {
      && words.Length == WORDS && previous < WORDS && mask == MaskOf(cursor)
      && (forall i :: 0 <= i < WORDS ==> Shows(words[i], i, held))
      && (forall port :: port in held ==> InRange(port))
    }

    constructor ()
      ensures Valid() && held == {} && fresh(words)
    {
      words := new bv64[WORDS](_ => 0xffff_ffff_ffff_ffff);
      previous, mask, cursor, held := 0, 0xffff_ffff_ffff_ffff, From(0), {};
      new;
      assert MaskOf(From(0)) == 0xffff_ffff_ffff_ffff;
      forall b: bv6 ensures Bit(0xffff_ffff_ffff_ffff, b) {
        FullHasAllBits(b);
      }
    }

    /** port_put, by whoever has the port. */
    method Put(port: int)
      requires Valid() && port in held
      modifies this`held, words
      ensures Valid() && held == old(held) - {port}
    {
      var i, b := Locate(port);
      PutBackTo(words[i], i, b, held);
      words[i] := words[i] | (1 << (b as bv64));
      held := held - {port};
      forall j | 0 <= j < WORDS ensures Shows(words[j], j, held) {
        if j != i {
          OtherWord(words[j], j, i, b, old(held));
        }
      }
    }

    /** No other word has a free port, and the current one has none from the cursor on. */
    ghost predicate OutOfPorts()
      requires words.Length == WORDS && previous < WORDS
      reads this, words
    {
      NoneFrom(words[previous], cursor) && forall i :: 0 <= i < WORDS && i != previous ==> words[i] == 0
    }

    /** So port_get can fail while ports are free: it is out of ports exactly when all free ports are
        in the current word, before the cursor. */
    lemma OutOfPortsExactlyWhen()
      requires Valid()
      ensures OutOfPorts() <==>
              forall i: nat, b: bv6 :: i < WORDS && Port(i, b) !in held ==> i == previous && !Within(cursor, b)
    {
      assert Shows(words[previous], previous, held);
      forall i: nat | i < WORDS ensures words[i] == 0 <==> forall b: bv6 :: Port(i, b) in held {
        EmptyWord(words[i], i, held);
      }
      if forall i: nat, b: bv6 :: i < WORDS && Port(i, b) !in held ==> i == previous && !Within(cursor, b) {
        forall b: bv6 | Within(cursor, b) ensures !Bit(words[previous], b) {
          assert Port(previous, b) in held;
        }
        forall i: nat | i < WORDS && i != previous ensures words[i] == 0 {
          forall b: bv6 ensures Port(i, b) in held {
          }
        }
      }
      if OutOfPorts() {
        forall i: nat, b: bv6 | i < WORDS && Port(i, b) !in held ensures i == previous && !Within(cursor, b) {
          assert words[i] == 0 ==> Port(i, b) in held;
        }
      }
    }

    /** Where the next port is, by next fit: from the cursor on in the current word, and then in the
        first word after it that has one. */
    ghost predicate IsNext(d: nat, b: bv6)
      requires words.Length == WORDS && previous < WORDS && d < WORDS
      reads this, words
    {
      if d == 0 then LowestFrom(words[previous], cursor, b)
      else
        && LowestFrom(words[Around(previous, d)], From(0), b) && NoneFrom(words[previous], cursor)
        && forall k :: 0 < k < d ==> words[Around(previous, k)] == 0
    }

    /** The search for another word with free ports; `d` is how far on it is. */
    method Search() returns (found: bool, i: nat, ghost d: nat)
      requires Valid()
      ensures i < WORDS && d < WORDS
      ensures found ==> d > 0 && i == Around(previous, d) && words[i] != 0
                        && forall k :: 0 < k < d ==> words[Around(previous, k)] == 0
      ensures !found ==> forall j :: 0 <= j < WORDS && j != previous ==> words[j] == 0
    {
      i, d, found := previous, 0, true;
      var searching := true;
      while searching
        invariant i < WORDS && d < WORDS && i == Around(previous, d)
        invariant forall k :: 0 < k < d ==> words[Around(previous, k)] == 0
        invariant d > 0 ==> searching == (words[i] == 0)
        invariant !searching ==> d > 0
        decreases WORDS - d, searching
      {
        i := i + 1;
        if i >= WORDS {
          i := 0;
        }
        if i == previous {
          forall j | 0 <= j < WORDS && j != previous ensures words[j] == 0 {
            assert j == Around(previous, if j > previous then j - previous else j + WORDS - previous);
          }
          found := false;
          return;
        }
        d := d + 1;
        searching := words[i] == 0;
      }
    }

    /** Takes the bit that the search has come to, and moves the cursor behind it. */
    method TakeBit(i: nat, b: bv6) returns (port: int)
      requires Valid() && i < WORDS && Bit(words[i], b)
      modifies this, words
      ensures Valid() && port == Port(i, b) && InRange(port) && port !in old(held) && held == old(held) + {port}
      ensures previous == i && cursor == (if b == 63 then Past else From(b + 1))
    {
      assert Shows(words[i], i, held);
      PortsAreDistinct(i, b, i, b);
      TakenFrom(words[i], i, b, held);
      previous := i;
      if b >= 63 {
        mask, cursor := 0, Past;
      } else {
        mask, cursor := !((1 << (b as bv64 + 1)) - 1), From(b + 1);
        NextMask(b);
      }
      words[i] := words[i] & !(1 << (b as bv64));
      port := b as int + 64 * i + MIN_IP_PORT;
      held := held + {port};
      forall j | 0 <= j < WORDS ensures Shows(words[j], j, held) {
        if j != i {
          OtherWord(words[j], j, i, b, old(held));
        }
      }
    }

    /** The first half of port_get: the next free port's word and bit, if there is one. */
    method Choose() returns (found: bool, i: nat, b: bv6, ghost d: nat)
      requires Valid()
      ensures found == !OutOfPorts()
      ensures found ==> d < WORDS && i == Around(previous, d) && Bit(words[i], b) && IsNext(d, b)
    {
      i, d := previous, 0;
      found, b := LowestUnder(words[i], mask, cursor);
      if found {
        return;
      }
      found, i, d := Search();
      if found {
        AllOnes();
        found, b := LowestUnder(words[i], 0xffff_ffff_ffff_ffff, From(0));
        if !found {
          WordHasBit(words[i]);
        }
      }
    }

    /** port_get: the next free port, or -1 exactly when the pool is out of ports. */
    method Get() returns (port: int)
      requires Valid()
      modifies this, words
      ensures Valid() && (port == -1 <==> old(OutOfPorts()))
      ensures port == -1 ==> held == old(held) && words[..] == old(words[..])
      ensures port == -1 ==> previous == old(previous) && mask == old(mask) && cursor == old(cursor) && OutOfPorts()
      ensures port != -1 ==> cursor != From(0)
      ensures port != -1 ==> InRange(port) && port !in old(held) && held == old(held) + {port}
      ensures port != -1 ==>
                exists d: nat, b: bv6 :: d < WORDS && port == Port(Around(old(previous), d), b) && old(IsNext(d, b))
    {
      var found, i, b, d := Choose();
      if !found {
        return -1;
      }
      port := TakeBit(i, b);
    }
  }

  function AllPorts(): set<int> {
    set port: int | MIN_IP_PORT <= port <= MAX_IP_PORT && InRange(port)
  }

  /** Ports are taken until there are none for port_get. */
  method TakeAll(pool: Pool)
    requires pool.Valid() && !pool.OutOfPorts()
    modifies pool, pool.words
    ensures pool.Valid() && pool.OutOfPorts() && pool.cursor != From(0)
  {
    var port := pool.Get();
    while port != -1
      invariant pool.Valid() && pool.cursor != From(0) && (port == -1 ==> pool.OutOfPorts())
      decreases AllPorts() - pool.held, port != -1
    {
      port := pool.Get();
    }
  }

  /** The first port of the current word is put back, and port_get does not find it. */
  method PutFirstBack(pool: Pool) returns (free: int)
    requires pool.Valid() && pool.OutOfPorts() && pool.cursor != From(0)
    modifies pool, pool.words
    ensures pool.Valid() && pool.OutOfPorts() && InRange(free) && free !in pool.held
  {
    free := Port(pool.previous, 0);
    PortsAreDistinct(pool.previous, 0, pool.previous, 0);
    pool.OutOfPortsExactlyWhen();
    assert Shows(pool.words[pool.previous], pool.previous, pool.held);
    if !Bit(pool.words[pool.previous], 0) {
      pool.Put(free);
    }
    pool.OutOfPortsExactlyWhen();
  }

  /** How port_get comes to fail while a port is free: it is called until it fails, and then a port of
      the last word is put back. */
  method RunDry() returns (pool: Pool, free: int, port: int)
    ensures pool.Valid() && InRange(free) && free !in pool.held && port == -1
  {
    pool := new Pool();
    ghost var other := if pool.previous == 0 then 1 else 0;
    assert Port(other, 0) !in pool.held;
    pool.OutOfPortsExactlyWhen();
    TakeAll(pool);
    free := PutFirstBack(pool);
    port := pool.Get();
  }

  lemma NextMask(b: bv6)
    requires b < 63
    ensures !((1 << (b as bv64 + 1)) - 1) == MaskOf(From(b + 1))
  {
  }

  lemma FullHasAllBits(b: bv6)
    ensures Bit(0xffff_ffff_ffff_ffff, b)
  {
  }
}