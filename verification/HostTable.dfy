/** The table of server addresses in core.c: open addressing with linear probing, over the ELF hash
    of server name and port. It is proved to be a map in which the first binding wins. */
module HostTable {

  const HASH_TABLE_SIZE: nat := 1024

  /** A C string, without its terminating NUL. */
  type Name = seq<bv8>

  datatype Option<T> = None | Some(value: T)

  /** A binding of a server and port to an address. */
  datatype Entry = Entry(server: Name, port: bv32, address: nat)

  // ------------------------------------------------------------------ the hash

  /** The top nibble of the low half is folded into the rest. */
  function Fold(h: bv64): bv64 {
    var g := h & 0xf000_0000;
    if g != 0 then (h ^ (g >> 24)) & !g else h
  }

  /** One turn of the loop in hash_code. */
  function HashStep(h: bv64, ch: bv8): bv64 {
    Fold((h << 4) + ch as bv64)
  }

  function HashFrom(h: bv64, server: Name): bv64
    decreases |server|
  {
    if |server| == 0 then h else HashFrom(HashStep(h, server[0]), server[1..])
  }

  predicate Negative(port: bv32) {
    port & 0x8000_0000 != 0
  }

  /** The port, which is an int, as an unsigned long: it is sign-extended. */
  function PortBits(port: bv32): bv64 {
    if Negative(port) then port as bv64 | 0xffff_ffff_0000_0000 else port as bv64
  }

  function LowTen(h: bv64): nat {
    ((h & 0x3ff) as bv10) as nat
  }

  /** hash_code modulo the table size: hash_code returns an int, and the remainder of a negative
      one is negative, or zero. */
  function Index(server: Name, port: bv32): int {
    var h := HashFrom(PortBits(port), server);
    if h & 0x8000_0000 == 0 then LowTen(h) else 0 - LowTen(-h)
  }

  lemma StepClearsTop(h: bv64, ch: bv8)
    ensures HashStep(h, ch) & 0xf000_0000 == 0
  {
  }

  /** The nibble above the lowest is changed by what was in the top one, and the lowest is kept. */
  lemma FoldMovesTop(h: bv64)
    ensures Fold(h) & 0xf000_0000 == 0 && Fold(h) & 0xf0 == (h ^ (h >> 24)) & 0xf0 && Fold(h) & 0xf == h & 0xf
  {
  }

  /** The hash takes the characters in their order. */
  lemma {:induction false} HashOneMore(h: bv64, server: Name, ch: bv8)
    ensures HashFrom(h, server + [ch]) == HashStep(HashFrom(h, server), ch)
    decreases |server|
  {
    if |server| == 0 {
      assert [ch][1..] == [];
    } else {
      assert (server + [ch])[1..] == server[1..] + [ch];
      HashOneMore(HashStep(h, server[0]), server[1..], ch);
    }
  }

  /** It starts with the port, in two's complement. */
  lemma PortIsExtended(port: bv32)
    ensures PortBits(port) == if port < 0x8000_0000 then port as bv64 else port as bv64 + 0xffff_ffff_0000_0000
  {
    TopBit(port);
    AddIsOr(port);
  }

  lemma TopBit(port: bv32)
    ensures Negative(port) <==> port >= 0x8000_0000
  {
  }

  lemma AddIsOr(port: bv32)
    ensures port as bv64 | 0xffff_ffff_0000_0000 == port as bv64 + 0xffff_ffff_0000_0000
  {
  }

  lemma {:induction false} HashClearsTop(h: bv64, server: Name)
    requires |server| > 0 || h & 0x8000_0000 == 0
    ensures HashFrom(h, server) & 0x8000_0000 == 0
    decreases |server|
  {
    if |server| > 0 {
      StepClearsTop(h, server[0]);
      TopNibble(HashStep(h, server[0]));
      HashClearsTop(HashStep(h, server[0]), server[1..]);
    }
  }

  lemma TopNibble(h: bv64)
    requires h & 0xf000_0000 == 0
    ensures h & 0x8000_0000 == 0
  {
  }

  lemma PortKeepsTop(port: bv32)
    requires !Negative(port)
    ensures PortBits(port) & 0x8000_0000 == 0
  {
  }

  /** The hash is an index into the table, unless the name is empty and the port negative. */
  lemma IndexIsValid(server: Name, port: bv32)
    requires !Negative(port) || |server| > 0
    ensures 0 <= Index(server, port) < HASH_TABLE_SIZE
  {
    if !Negative(port) {
      PortKeepsTop(port);
    }
    HashClearsTop(PortBits(port), server);
  }

  predicate Usable(server: Name, port: bv32) {
    !Negative(port) || |server| > 0
  }

  function Home(e: Entry): nat
    requires Usable(e.server, e.port)
  {
    IndexIsValid(e.server, e.port);
    Index(e.server, e.port)
  }

  // ------------------------------------------------------------------ what it should do

  predicate Matches(e: Entry, server: Name, port: bv32) {
    e.port == port && e.server == server
  }

  /** The address that was entered first for a server and port. */
  function FirstBinding(log: seq<Entry>, server: Name, port: bv32): Option<nat> {
    if |log| == 0 then None
    else if Matches(log[0], server, port) then Some(log[0].address)
    else FirstBinding(log[1..], server, port)
  }

  lemma {:induction false} FirstBindingIs(log: seq<Entry>, i: nat, server: Name, port: bv32)
    requires i < |log| && Matches(log[i], server, port)
    requires forall j :: 0 <= j < i ==> !Matches(log[j], server, port)
    ensures FirstBinding(log, server, port) == Some(log[i].address)
  {
    if i > 0 {
      FirstBindingIs(log[1..], i - 1, server, port);
    }
  }

  lemma {:induction false} NoBinding(log: seq<Entry>, server: Name, port: bv32)
    requires forall j :: 0 <= j < |log| ==> !Matches(log[j], server, port)
    ensures FirstBinding(log, server, port) == None
  {
    if |log| > 0 {
      NoBinding(log[1..], server, port);
    }
  }

  // ------------------------------------------------------------------ what it does

  /** The slot that is d places after another one. */
  function Around(start: nat, d: nat): nat {
    if start + d >= HASH_TABLE_SIZE then start + d - HASH_TABLE_SIZE else start + d
  }

  class HashTable {
    const slots: array<Option<Entry>>
    /** Everything that was entered, in order. */
    ghost var log: seq<Entry>
    /** Which of these entries is in a slot; -1 for none. */
    ghost var owner: seq<int>
    /** How far from its home each entry is. */
    ghost var offset: seq<nat>

    ghost predicate SlotOk(j: nat)
      requires slots.Length == |owner| == HASH_TABLE_SIZE && j < HASH_TABLE_SIZE
      reads this, slots
    {
      -1 <= owner[j] < |log| && slots[j] == if owner[j] < 0 then None else Some(log[owner[j]])
    }

    /** An entry is in its slot, and all slots from its home to there hold earlier entries. */
    ghost predicate EntryOk(i: nat)
      requires |owner| == HASH_TABLE_SIZE && |offset| == |log| && i < |log|
      reads this
    {
      && Usable(log[i].server, log[i].port) && offset[i] < HASH_TABLE_SIZE
      && owner[Around(Home(log[i]), offset[i])] == i
      && forall d :: 0 <= d < offset[i] ==> 0 <= owner[Around(Home(log[i]), d)] < i
    }

    ghost predicate Valid()
      reads this, slots
    {
      && slots.Length == |owner| == HASH_TABLE_SIZE && |offset| == |log|
      && (forall j :: 0 <= j < HASH_TABLE_SIZE ==> SlotOk(j))
      && (forall i :: 0 <= i < |log| ==> EntryOk(i))
    }

    constructor ()
      ensures Valid() && log == [] && forall j :: 0 <= j < HASH_TABLE_SIZE ==> slots[j].None?
    {
      slots := new Option<Entry>[HASH_TABLE_SIZE](_ => None);
      log, owner, offset := [], seq(HASH_TABLE_SIZE, _ => -1), [];
    }

    /** hash_enter; it never ends when all slots are taken. */
    method Enter(server: Name, port: bv32, address: nat)
      requires Valid() && Usable(server, port)
      requires exists j :: 0 <= j < HASH_TABLE_SIZE && slots[j].None?
      modifies this, slots
      ensures Valid() && log == old(log) + [Entry(server, port, address)]
    {
      ghost var free: nat :| free < HASH_TABLE_SIZE && slots[free].None?;
      var e := Entry(server, port, address);
      IndexIsValid(server, port);
      var index: nat := Index(server, port);
      ghost var d := 0;
      ghost var enough: nat := if free >= Home(e) then free - Home(e) else free + HASH_TABLE_SIZE - Home(e);
      assert Around(Home(e), enough) == free && SlotOk(free);
      while slots[index].Some?
        invariant index < HASH_TABLE_SIZE && d <= enough && index == Around(Home(e), d)
        invariant forall k :: 0 <= k < d ==> owner[Around(Home(e), k)] >= 0
        decreases HASH_TABLE_SIZE - d
      {
        assert SlotOk(index);
        index := index + 1;
        if index >= HASH_TABLE_SIZE {
          index := 0;
        }
        d := d + 1;
      }
      Put(index, e, d);
    }

    /** Writes an entry to a slot that the probing has found free. */
    method Put(index: nat, e: Entry, ghost d: nat)
      requires Valid() && Usable(e.server, e.port) && index < HASH_TABLE_SIZE && slots[index].None?
      requires d < HASH_TABLE_SIZE && index == Around(Home(e), d)
      requires forall k :: 0 <= k < d ==> owner[Around(Home(e), k)] >= 0
      modifies this, slots
      ensures Valid() && log == old(log) + [e]
    {
      assert SlotOk(index) && forall k :: 0 <= k < d ==> SlotOk(Around(Home(e), k));
      slots[index] := Some(e);
      owner := owner[index := |log|];
      log := log + [e];
      offset := offset + [d];
      forall j | 0 <= j < HASH_TABLE_SIZE ensures SlotOk(j) {
        assert old(SlotOk(j));
      }
      forall i | 0 <= i < |log| ensures EntryOk(i) {
        if i < |log| - 1 {
          assert old(EntryOk(i));
        }
      }
    }

    /** hash_lookup: the address that was entered first for this server and port, if any. */
    method Lookup(server: Name, port: bv32) returns (sin: Option<nat>)
      requires Valid() && Usable(server, port)
      ensures sin == FirstBinding(log, server, port)
    {
      var wanted := Entry(server, port, 0);
      IndexIsValid(server, port);
      var startIndex: nat := Index(server, port);
      var index := startIndex;
      ghost var d := 0;
      while slots[index].Some?
        invariant index < HASH_TABLE_SIZE && d < HASH_TABLE_SIZE && index == Around(startIndex, d)
        invariant forall k :: 0 <= k < d ==> PassedBy(Around(startIndex, k), server, port)
        decreases HASH_TABLE_SIZE - d
      {
        assert SlotOk(index);
        if slots[index].value.port == port && slots[index].value.server == server {
          FoundFirst(server, port, startIndex, d);
          return Some(slots[index].value.address);
        }
        index := index + 1;
        if index >= HASH_TABLE_SIZE {
          index := 0;
        }
        d := d + 1;
        if index == startIndex {
          break;
        }
      }
      NotFound(server, port, startIndex, d);
      return None;
    }

    /** A slot that holds an entry for something else. */
    ghost predicate PassedBy(j: nat, server: Name, port: bv32)
      requires |owner| == HASH_TABLE_SIZE && j < HASH_TABLE_SIZE
      reads this
    {
      0 <= owner[j] < |log| && !Matches(log[owner[j]], server, port)
    }

    /** An entry for this server and port is not among the slots passed by, and is not further on
        than a slot that is free or holds a later entry. */
    lemma NotBefore(server: Name, port: bv32, start: nat, d: nat, i: nat)
      requires Valid() && Usable(server, port) && start == Home(Entry(server, port, 0)) && i < |log|
                && d <= HASH_TABLE_SIZE
      requires forall k :: 0 <= k < d ==> PassedBy(Around(start, k), server, port)
      requires Matches(log[i], server, port)
      ensures offset[i] >= d && (offset[i] > d ==> d < HASH_TABLE_SIZE && 0 <= owner[Around(start, d)] < i)
      ensures offset[i] == d ==> d < HASH_TABLE_SIZE && owner[Around(start, d)] == i
    {
      assert EntryOk(i) && Home(log[i]) == start;
      assert owner[Around(start, offset[i])] == i;
    }

    lemma FoundFirst(server: Name, port: bv32, start: nat, d: nat)
      requires Valid() && Usable(server, port) && start == Home(Entry(server, port, 0)) && d < HASH_TABLE_SIZE
      requires forall k :: 0 <= k < d ==> PassedBy(Around(start, k), server, port)
      requires 0 <= owner[Around(start, d)] < |log| && Matches(log[owner[Around(start, d)]], server, port)
      ensures FirstBinding(log, server, port) == Some(log[owner[Around(start, d)]].address)
    {
      var i := owner[Around(start, d)];
      forall j | 0 <= j < i ensures !Matches(log[j], server, port) {
        if Matches(log[j], server, port) {
          NotBefore(server, port, start, d, j);
        }
      }
      FirstBindingIs(log, i, server, port);
    }

    lemma NotFound(server: Name, port: bv32, start: nat, d: nat)
      requires Valid() && Usable(server, port) && start == Home(Entry(server, port, 0)) && d <= HASH_TABLE_SIZE
      requires forall k :: 0 <= k < d ==> PassedBy(Around(start, k), server, port)
      requires d < HASH_TABLE_SIZE ==> slots[Around(start, d)].None?
      ensures FirstBinding(log, server, port) == None
    {
      forall j | 0 <= j < |log| ensures !Matches(log[j], server, port) {
        assert EntryOk(j) && (d < HASH_TABLE_SIZE ==> SlotOk(Around(start, d)));
        if Matches(log[j], server, port) {
          NotBefore(server, port, start, d, j);
        }
      }
      NoBinding(log, server, port);
    }
  }
}
