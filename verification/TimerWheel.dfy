/** The hashed timing wheel of timer.c: spokes of doubly linked timers that store only the
    difference to the timer before them. It is proved to behave as a plain map from timers
    to the ticks they have left, for every use by callers and by callbacks during a tick. */
module TimerWheel {

  const WHEEL_SIZE: nat := 4096

  /** Where a timer record is: a list head of the wheel, on a spoke, on the free list (at that
      height of the stack), being processed, or not in use at all. */
  datatype Place = Head(index: nat) | OnSpoke(index: nat) | Free(slot: nat) | Active | Unused

  predicate OffWheel(p: Place) {
    p.Free? || p.Unused?
  }

  class Timer {
    var next: Timer?
    var prev: Timer?
    var delta: nat
    ghost var place: Place
    /** The deltas up to this one, added up: how many turns of the wheel are left. */
    ghost var rounds: nat
    /** Grows along a spoke. */
    ghost var key: real

    constructor ()
      ensures place == Unused && next == null && prev == null && rounds == 0 && key == 0.0
    {
      next, prev, delta, place, rounds, key := null, null, 0, Unused, 0, 0.0;
    }
  }

  // ---------------------------------------------------------------- what it should do

  datatype Event = Scheduled(t: Timer, ticks: nat) | Cancelled(t: Timer) | Fired(t: Timer) | Advanced

  /** Ticks left, per pending timer. */
  type Pending = map<Timer, nat>

  /** A timer fires when it has no ticks left, and time advances when all these have fired. */
  ghost predicate Allowed(m: Pending, e: Event) {
    match e
    case Scheduled(t, ticks) => t !in m && ticks > 0
    case Cancelled(t) => t in m
    case Fired(t) => t in m && m[t] == 0
    case Advanced => forall t :: t in m ==> m[t] > 0
  }

  ghost function Next(m: Pending, e: Event): Pending
    requires Allowed(m, e)
  {
    match e
    case Scheduled(t, ticks) => m[t := ticks]
    case Cancelled(t) => m - {t}
    case Fired(t) => m - {t}
    case Advanced => map t | t in m :: m[t] - 1
  }

  ghost predicate Legal(m: Pending, es: seq<Event>)
    decreases |es|
  {
    es == [] || (Allowed(m, es[0]) && Legal(Next(m, es[0]), es[1..]))
  }

  ghost function Replay(m: Pending, es: seq<Event>): Pending
    requires Legal(m, es)
    decreases |es|
  {
    if es == [] then m else Replay(Next(m, es[0]), es[1..])
  }

  ghost predicate Run(m: Pending, es: seq<Event>, after: Pending) {
    Legal(m, es) && Replay(m, es) == after
  }

  ghost function Ticks(es: seq<Event>): nat {
    if es == [] then 0 else (if es[0] == Advanced then 1 else 0) + Ticks(es[1..])
  }

  lemma {:induction false} RunAppend(m: Pending, a: seq<Event>, m1: Pending, b: seq<Event>, m2: Pending)
    requires Run(m, a, m1) && Run(m1, b, m2)
    ensures Run(m, a + b, m2) && Ticks(a + b) == Ticks(a) + Ticks(b)
    decreases |a|
  {
    if a == [] {
      assert a + b == b;
    } else {
      assert (a + b)[1..] == a[1..] + b;
      RunAppend(Next(m, a[0]), a[1..], m1, b, m2);
    }
  }

  lemma RunOne(m: Pending, e: Event)
    requires Allowed(m, e)
    ensures Run(m, [e], Next(m, e))
  {
    assert [e][1..] == [];
  }

  /** A timer that is neither cancelled nor fired has lost one tick per tick. */
  lemma {:induction false} CountsDown(m: Pending, es: seq<Event>, t: Timer)
    requires Legal(m, es) && t in m && Cancelled(t) !in es && Fired(t) !in es
    ensures Ticks(es) <= m[t] && t in Replay(m, es) && Replay(m, es)[t] == m[t] - Ticks(es)
    decreases |es|
  {
    if es != [] {
      assert es[0] in es && forall e :: e in es[1..] ==> e in es;
      CountsDown(Next(m, es[0]), es[1..], t);
    }
  }

  /** A timer scheduled for some number of ticks and not cancelled fires after exactly that
      many, in every legal run. */
  lemma FiresOnTime(m: Pending, t: Timer, ticks: nat, es: seq<Event>)
    requires Legal(m, [Scheduled(t, ticks)] + es + [Fired(t)]) && Cancelled(t) !in es && Fired(t) !in es
    ensures Ticks(es) == ticks
  {
    var all := [Scheduled(t, ticks)] + es + [Fired(t)];
    assert all[1..] == es + [Fired(t)];
    var m1 := Next(m, all[0]);
    LegalPrefix(m1, es, [Fired(t)]);
    CountsDown(m1, es, t);
  }

  lemma {:induction false} LegalPrefix(m: Pending, a: seq<Event>, b: seq<Event>)
    requires Legal(m, a + b)
    ensures Legal(m, a) && Legal(Replay(m, a), b)
    decreases |a|
  {
    if a == [] {
      assert a + b == b;
    } else {
      assert (a + b)[1..] == a[1..] + b;
      LegalPrefix(Next(m, a[0]), a[1..], b);
    }
  }

  // ---------------------------------------------------------------- what it does

  class Wheel {
    /** One list head per spoke; a head uses only its links. */
    const spokes: seq<Timer>
    var curr: nat
    var freeList: Timer?
    var tCurr: Timer?
    /** The timers that somebody holds: those scheduled and not yet fired or cancelled. */
    var held: set<Timer>
    ghost var records: set<Timer>
    ghost var free: seq<Timer>
    /** While the current spoke is drained, its head is out of date. */
    ghost var draining: bool
    /** The first timer of a spoke that has lost the record before it. */
    ghost var loose: Timer?
    /** The record on its way between the free list and the wheel, if any. */
    ghost var transit: Timer?

    /** The spoke on whose list a record is. The timer being processed takes the place of the
        head of the current spoke. */
    ghost function SpokeOf(r: Timer): int
      reads this, r
    {
      match r.place
      case OnSpoke(i) => i
      case Head(i) => if draining && i == curr then -1 else i
      case Active => curr
      case _ => -1
    }

    ghost predicate LinkedOn(r: Timer)
      reads this, records
      requires r in records && held <= records
    {
      SpokeOf(r) >= 0 && r.next != null ==>
        r.next in held && SpokeOf(r.next) == SpokeOf(r) && r.next.prev == r
    }

    ghost predicate LinkedBack(t: Timer)
      reads this, records
      requires t in held && held <= records
    {
      if t == loose then t.place == OnSpoke(curr) && t.rounds == t.delta
           && t.prev != null && t.prev in records && SpokeOf(t.prev) < 0
      else t.prev != null && t.prev in records && SpokeOf(t.prev) == SpokeOf(t) && t.prev.next == t
           && t.prev.key < t.key && t.rounds == t.prev.rounds + t.delta
    }

    ghost predicate FreeListed()
      reads this, records
    {
      && (forall k :: 0 <= k < |free| ==> free[k] in records && free[k].place == Free(k) && free[k].prev == null)
      && (forall k :: 0 < k < |free| ==> free[k].next == free[k - 1])
      && (|free| > 0 ==> free[0].next == null)
      && freeList == if |free| == 0 then null else free[|free| - 1]
    }

    ghost predicate WellPlaced(r: Timer)
      reads this, r
      requires |spokes| == WHEEL_SIZE
    {
      && r.key >= 0.0 && (r in held <==> r.place.OnSpoke?)
      && match r.place
         case OnSpoke(i) => i < WHEEL_SIZE && r.key > 0.0
         case Head(i) => i < WHEEL_SIZE && r == spokes[i] && r.rounds == 0 && r.key == 0.0
         case Active => r == tCurr && r.rounds == 0 && r.prev != null
         case Free(slot) => slot < |free| && free[slot] == r
         case Unused => r == transit
    }

    ghost predicate Placed()
      reads this, records
    {
      && |spokes| == WHEEL_SIZE && curr < WHEEL_SIZE && held <= records
      && (forall i :: 0 <= i < WHEEL_SIZE ==> spokes[i] in records && spokes[i].place == Head(i))
      && (forall r :: r in records ==> WellPlaced(r))
    }

    ghost predicate Shape()
      reads this, records
    {
      && Placed() && FreeListed()
      && (forall r {:trigger LinkedOn(r)} :: r in records ==> LinkedOn(r))
      && (forall t {:trigger LinkedBack(t)} :: t in held ==> LinkedBack(t))
    }

    /** Well formed, but perhaps a record is on its way. */
    ghost predicate Intact()
      reads this, records
    {
      && Shape() && loose == null && (draining <==> tCurr != null)
      && (tCurr != null ==> tCurr in records && tCurr.place == Active)
    }

    /** Well formed, and every record is a list head, on a spoke, on the free list, or the timer
        being processed. */
    ghost predicate Valid()
      reads this, records
    {
      Intact() && transit == null
    }

    /** Steps from the current spoke to spoke i. */
    ghost function Distance(i: nat): int
      reads this
    {
      if i >= curr then i - curr else i + WHEEL_SIZE - curr
    }

    ghost function TicksLeft(t: Timer): int
      reads this, t
      requires t.place.OnSpoke?
    {
      Distance(t.place.index) + WHEEL_SIZE * t.rounds
    }

    ghost function Remaining(): Pending
      reads this, records
      requires Placed()
    {
      map t | t in held :: TicksLeft(t)
    }

    constructor ()
      ensures Valid() && tCurr == null && Remaining() == map[] && fresh(records)
    {
      var heads: seq<Timer> := [];
      while |heads| < WHEEL_SIZE
        invariant |heads| <= WHEEL_SIZE
        invariant forall i :: 0 <= i < |heads| ==> fresh(heads[i]) && heads[i].place == Head(i)
        invariant forall i :: 0 <= i < |heads| ==> heads[i].next == null && heads[i].rounds == 0 && heads[i].key == 0.0
      {
        var head := new Timer();
        head.place := Head(|heads|);
        heads := heads + [head];
      }
      spokes := heads;
      records := set h | h in heads;
      curr, freeList, tCurr, held, free, draining, loose, transit := 0, null, null, {}, [], false, null, null;
    }

    /** Pushes a record on the free list. */
    method Done(t: Timer)
      requires FreeListed() && t in records && !t.place.Free?
      modifies this`freeList, this`free, this`transit, t
      ensures FreeListed() && t.place == Free(|old(free)|) && t.key == old(t.key)
      ensures free == old(free) + [t] && transit == null
    {
      t.next := freeList;
      t.prev := null;
      freeList := t;
      t.place := Free(|free|);
      free := free + [t];
      transit := null;
    }

    /** One timer more, and nothing else has changed for the others. */
    twostate predicate Adds(new t: Timer, ticks: int)
      requires old(Placed()) && Placed()
      reads this, records
    {
      && t !in old(held) && held == old(held) + {t} && TicksLeft(t) == ticks
      && forall r :: r in old(held) ==> TicksLeft(r) == old(TicksLeft(r))
    }

    twostate lemma AddsToMap(new t: Timer, ticks: nat)
      requires old(Placed()) && Placed() && Adds(t, ticks)
      ensures Remaining() == old(Remaining())[t := ticks]
    {
    }

    /** Everything but the listed records and the bookkeeping of the free list is as before. */
    twostate predicate Untouched(new changed: set<Timer>)
      reads this, records
    {
      && curr == old(curr) && tCurr == old(tCurr) && draining == old(draining) && loose == old(loose)
      && (forall r :: r in old(records) && r !in changed ==> r in records && unchanged(r))
    }

    /** A record that is on no spoke before and after does not matter to the spokes. */
    twostate lemma StillLinked(new t: Timer)
      requires old(Shape()) && Untouched({t}) && held == old(held) && records == old(records) + {t}
      requires t in old(records) ==> OffWheel(old(t.place)) && t.key == old(t.key)
      requires OffWheel(t.place) && t.key >= 0.0
      ensures forall r {:trigger LinkedOn(r)} :: r in records ==> LinkedOn(r)
      ensures forall r {:trigger LinkedBack(r)} :: r in held ==> LinkedBack(r)
    {
      forall r | r in records ensures LinkedOn(r) {
        if r != t {
          assert old(LinkedOn(r));
        }
      }
      forall r | r in held ensures LinkedBack(r) {
        assert old(LinkedBack(r));
      }
    }

    twostate lemma StillPlaced(new t: Timer)
      requires old(Shape()) && Untouched({t}) && held == old(held) && records == old(records) + {t}
      requires t in old(records) ==> OffWheel(old(t.place)) && t.key == old(t.key)
      requires OffWheel(t.place) && t.key >= 0.0
      requires (old(transit) == null || old(transit) == t) && WellPlaced(t) && |spokes| == WHEEL_SIZE
      requires forall k :: 0 <= k < |old(free)| && old(free)[k] != t ==> k < |free| && free[k] == old(free)[k]
      ensures Placed() && Remaining() == old(Remaining())
    {
      assert forall r :: r in held ==> r.place == old(r.place) && r.rounds == old(r.rounds);
    }

    /** Pops a record off the free list. */
    method Pop() returns (t: Timer)
      requires FreeListed() && freeList != null
      modifies this`freeList, this`free, this`transit, records
      ensures FreeListed() && t in records && old(t.place).Free? && t.place == Unused && t.key == old(t.key)
      ensures old(free) == free + [t] && transit == t
      ensures forall r :: r in records && r != t ==> unchanged(r)
    {
      t := freeList;
      assert t == free[|free| - 1] && forall k :: 0 <= k < |free| - 1 ==> free[k] != t;
      freeList := t.next;
      free := free[..|free| - 1];
      t.next, t.prev, t.delta := null, null, 0;
      t.place := Unused;
      transit := t;
    }

    /** No record is ever given up, and the added ones are new. */
    twostate predicate Grown()
      reads this
    {
      records >= old(records) && forall r :: r in records && r !in old(records) ==> fresh(r)
    }

    /** A record off the free list, or a new one. */
    method Take() returns (t: Timer)
      requires Valid()
      modifies this`freeList, this`free, this`records, this`transit, records
      ensures Intact() && Untouched({t}) && records == old(records) + {t} && fresh(records - old(records))
      ensures t.place == Unused && Remaining() == old(Remaining())
      ensures if old(free) == [] then t !in old(records) && free == []
              else t == old(free)[|old(free)| - 1] && free == old(free)[..|old(free)| - 1]
    {
      if freeList != null {
        t := Pop();
      } else {
        t := new Timer();
        records := records + {t};
        transit := t;
      }
      StillPlaced(t);
      StillLinked(t);
    }

    /** timer_schedule. A callback must not ask for a multiple of WHEEL_SIZE ticks: that is the
        spoke being drained, whose head is out of date. */
    method Schedule(requested: nat) returns (t: Timer)
      requires Valid() && (tCurr != null ==> requested == 0 || requested % WHEEL_SIZE != 0)
      modifies this`freeList, this`free, this`transit, this`records, this`held, records
      ensures Valid() && Grown()
      ensures t !in old(held) && (old(free) != [] ==> records == old(records))
      ensures Remaining() == old(Remaining())[t := if requested == 0 then 1 else requested]
    {
      t := Take();
      var ticks := if requested == 0 then 1 else requested;
      var spoke := curr + ticks % WHEEL_SIZE;
      if spoke >= WHEEL_SIZE {
        spoke := spoke - WHEEL_SIZE;
      }
      label taken:
      PutOn(spoke, ticks / WHEEL_SIZE, t);
      assert Distance(spoke) + WHEEL_SIZE * (ticks / WHEEL_SIZE) == ticks;
      AddsToMap@taken(t, ticks);
    }

    /** Puts a new timer on a spoke, with this many turns of the wheel to go. */
    method PutOn(spoke: nat, turns: nat, t: Timer)
      requires Intact() && spoke < WHEEL_SIZE && (draining ==> spoke != curr)
      requires t in records && t.place == Unused
      modifies this`held, this`transit, records
      ensures Valid() && Adds(t, Distance(spoke) + WHEEL_SIZE * turns)
    {
      var p, delta := Find(spoke, turns);
      InsertAfter(p, t, spoke, delta);
    }

    /** Walks along a spoke to the place for a timer with this many turns to go. */
    method Find(spoke: nat, turns: nat) returns (p: Timer, delta: nat)
      requires Intact() && spoke < WHEEL_SIZE && (draining ==> spoke != curr)
      ensures p in records && SpokeOf(p) == spoke && p.rounds + delta == turns
      ensures p.next != null ==> p.next in held && delta <= p.next.delta
    {
      p, delta := spokes[spoke], turns;
      while p.next != null && delta > p.next.delta
        invariant p in records && SpokeOf(p) == spoke
        invariant p.rounds + delta == turns
        decreases set r | r in held && r.key > p.key
      {
        assert LinkedOn(p) && LinkedBack(p.next);
        ghost var before := set r | r in held && r.key > p.key;
        delta := delta - p.next.delta;
        p := p.next;
        assert p in before && p !in (set r | r in held && r.key > p.key);
      }
      assert LinkedOn(p);
    }

    twostate predicate Inserted(new p: Timer, new t: Timer, new spoke: nat, new delta: nat)
      requires p in old(records) && t in old(records)
      reads this, records
    {
      var n := old(p.next);
      && p in records && t in records && (n != null ==> n in records)
      && Untouched(if n == null then {p, t} else {p, t, n})
      && records == old(records) && held == old(held) + {t} && transit == null
      && free == old(free) && freeList == old(freeList)
      && p.next == t && p.prev == old(p.prev) && p.delta == old(p.delta)
      && p.place == old(p.place) && p.rounds == old(p.rounds) && p.key == old(p.key)
      && t.next == n && t.prev == p && t.delta == delta && t.place == OnSpoke(spoke) && t.rounds == p.rounds + delta
      && p.key < t.key
      && (n != null ==>
            n.next == old(n.next) && n.prev == t && n.delta == old(n.delta) - delta && t.key < n.key
            && n.place == old(n.place) && n.rounds == old(n.rounds) && n.key == old(n.key))
    }

    twostate lemma InsertKeepsPlaces(new p: Timer, new t: Timer, new spoke: nat, new delta: nat)
      requires old(Shape()) && old(loose) == null && spoke < WHEEL_SIZE
      requires p in old(records) && t in old(records) && old(SpokeOf(p)) == spoke && old(p.next) != t
      requires old(t.place) == Unused && Inserted(p, t, spoke, delta)
      ensures Placed() && FreeListed()
    {
      assert old(LinkedOn(p));
    }

    twostate lemma InsertKeepsLinks(new p: Timer, new t: Timer, new spoke: nat, new delta: nat)
      requires old(Shape()) && old(loose) == null
      requires p in old(records) && t in old(records) && old(SpokeOf(p)) == spoke && old(p.next) != t
      requires old(t.place) == Unused && Inserted(p, t, spoke, delta)
      ensures forall r {:trigger LinkedOn(r)} :: r in records ==> LinkedOn(r)
    {
      assert old(LinkedOn(p));
      forall r | r in records ensures LinkedOn(r) {
        assert old(LinkedOn(r));
      }
    }

    twostate lemma InsertKeepsBackLinks(new p: Timer, new t: Timer, new spoke: nat, new delta: nat)
      requires old(Shape()) && old(loose) == null
      requires p in old(records) && t in old(records) && old(SpokeOf(p)) == spoke && old(p.next) != t
      requires old(t.place) == Unused && Inserted(p, t, spoke, delta)
      ensures forall r {:trigger LinkedBack(r)} :: r in held ==> LinkedBack(r)
    {
      assert old(LinkedOn(p));
      forall r | r in held ensures LinkedBack(r) {
        if r != t {
          assert old(LinkedBack(r));
        }
      }
    }

    twostate lemma InsertAddsOne(new p: Timer, new t: Timer, new spoke: nat, new delta: nat)
      requires old(Shape()) && old(loose) == null && Placed()
      requires p in old(records) && t in old(records) && old(SpokeOf(p)) == spoke && old(p.next) != t
      requires old(t.place) == Unused && Inserted(p, t, spoke, delta)
      ensures Adds(t, Distance(spoke) + WHEEL_SIZE * (old(p.rounds) + delta))
    {
      assert old(LinkedOn(p));
      assert forall r :: r in old(held) ==> r.place == old(r.place) && r.rounds == old(r.rounds);
    }

    /** Puts a new timer on a spoke, between a record of the spoke and the next one. */
    method InsertAfter(p: Timer, t: Timer, spoke: nat, delta: nat)
      requires Intact() && t in records && t.place == Unused
      requires p in records && SpokeOf(p) == spoke
      requires p.next != null ==> delta <= p.next.delta
      modifies this`held, this`transit, p, t, p.next
      ensures Valid() && Adds(t, Distance(spoke) + WHEEL_SIZE * (old(p.rounds) + delta))
    {
      assert LinkedOn(p) && WellPlaced(t) && (p.next != null ==> LinkedBack(p.next));
      SpliceIn(p, t, spoke, delta);
      InsertKeepsPlaces(p, t, spoke, delta);
      InsertKeepsLinks(p, t, spoke, delta);
      InsertKeepsBackLinks(p, t, spoke, delta);
      InsertAddsOne(p, t, spoke, delta);
    }

    method SpliceIn(p: Timer, t: Timer, spoke: nat, delta: nat)
      requires {p, t} <= records && p != t && t.place == Unused
      requires p.next != null ==> p.next in records && p.next != p && p.next != t
      requires p.next != null ==> delta <= p.next.delta && p.key < p.next.key
      modifies this`held, this`transit, p, t, p.next
      ensures Inserted(p, t, spoke, delta)
    {
      t.next := p.next;
      t.prev := p;
      p.next := t;
      t.delta := delta;
      if t.next != null {
        t.next.prev := t;
        t.next.delta := t.next.delta - delta;
      }
      t.place, t.rounds := OnSpoke(spoke), p.rounds + delta;
      t.key := if t.next == null then p.key + 1.0 else (p.key + t.next.key) / 2.0;
      held := held + {t};
      transit := null;
    }

    // -------------------------------------------------------------- cancelling

    twostate predicate Removed(new t: Timer)
      requires t in old(records)
      reads this, records
    {
      var n, p := old(t.next), old(t.prev);
      && p != null && p in records && t in records && (n != null ==> n in records)
      && Untouched(if n == null then {p, t} else {p, t, n})
      && records == old(records) && held == old(held) - {t} && transit == t
      && free == old(free) && freeList == old(freeList)
      && t.place == Unused && t.key == old(t.key)
      && p.next == n && p.prev == old(p.prev) && p.delta == old(p.delta)
      && p.place == old(p.place) && p.rounds == old(p.rounds) && p.key == old(p.key)
      && (n != null ==>
            n.next == old(n.next) && n.prev == p && n.delta == old(n.delta) + old(t.delta)
            && n.place == old(n.place) && n.rounds == old(n.rounds) && n.key == old(n.key))
    }

    twostate lemma RemoveKeepsPlaces(new t: Timer)
      requires old(Shape()) && old(loose) == null && old(transit) == null && t in old(held) && t in old(records)
                && Removed(t)
      ensures Placed() && FreeListed()
      ensures held == old(held) - {t} && forall r :: r in held ==> TicksLeft(r) == old(TicksLeft(r))
    {
      assert old(LinkedBack(t)) && old(LinkedOn(t));
    }

    twostate lemma RemoveKeepsLinks(new t: Timer)
      requires old(Shape()) && old(loose) == null && old(transit) == null && t in old(held) && t in old(records)
                && Removed(t)
      ensures forall r {:trigger LinkedOn(r)} :: r in records ==> LinkedOn(r)
    {
      assert old(LinkedBack(t)) && old(LinkedOn(t));
      forall r | r in records ensures LinkedOn(r) {
        assert old(LinkedOn(r));
      }
    }

    twostate lemma RemoveKeepsBackLinks(new t: Timer)
      requires old(Shape()) && old(loose) == null && old(transit) == null && t in old(held) && t in old(records)
                && Removed(t)
      ensures forall r {:trigger LinkedBack(r)} :: r in held ==> LinkedBack(r)
    {
      assert old(LinkedBack(t)) && old(LinkedOn(t));
      forall r | r in held ensures LinkedBack(r) {
        assert old(LinkedBack(r));
      }
    }

    method Unlink(t: Timer)
      requires Valid() && t in held
      modifies this`held, this`transit, records
      ensures Intact() && t.place == Unused && transit == t && Untouched(records)
      ensures Remaining() == old(Remaining()) - {t}
    {
      assert LinkedBack(t) && LinkedOn(t) && (t.next != null ==> LinkedBack(t.next));
      SpliceOut(t);
      RemoveKeepsPlaces(t);
      RemoveKeepsLinks(t);
      RemoveKeepsBackLinks(t);
    }

    method SpliceOut(t: Timer)
      requires t in records && t.prev != null && t.prev in records && t.prev != t
      requires t.next != null ==> t.next in records && t.next != t && t.next != t.prev
      modifies this`held, this`transit, t, t.prev, t.next
      ensures Removed(t)
    {
      if t.next != null {
        t.next.delta := t.next.delta + t.delta;
        t.next.prev := t.prev;
      }
      t.prev.next := t.next;
      t.place := Unused;
      held := held - {t};
      transit := t;
    }

    /** timer_cancel, for a timer that is pending or being processed; the latter is refused. */
    method Cancel(t: Timer)
      requires Valid() && (t in held || t == tCurr)
      modifies this`freeList, this`free, this`transit, this`held, records
      ensures Valid()
      ensures Remaining() == if t == tCurr then old(Remaining()) else old(Remaining()) - {t}
    {
      assert t.prev != null by { assert WellPlaced(t) && (t in held ==> LinkedBack(t)); }
      if tCurr == t {
        return;
      }
      Unlink(t);
      label unlinked:
      Done(t);
      StillPlaced@unlinked(t);
      StillLinked@unlinked(t);
    }

    // -------------------------------------------------------------- ticking

    /** One thing a callback may do: schedule a timer (but not for a multiple of WHEEL_SIZE
        ticks), cancel a pending timer, or try to cancel itself. */
    method CallbackStep(active: Timer) returns (ghost es: seq<Event>)
      requires Valid() && tCurr == active
      modifies this`freeList, this`free, this`transit, this`records, this`held, records
      ensures Valid() && Grown()
      ensures Run(old(Remaining()), es, Remaining()) && ByCallback(es)
    {
      es := [];
      if * {
        var ticks: nat := *;
        if ticks == 0 || ticks % WHEEL_SIZE != 0 {
          var t := Schedule(ticks);
          es := [Scheduled(t, if ticks <= 0 then 1 else ticks)];
          RunOne(old(Remaining()), es[0]);
        }
      } else if t: Timer :| t in held {
        WhereIs(t);
        Cancel(t);
        es := [Cancelled(t)];
        RunOne(old(Remaining()), es[0]);
      } else {
        Cancel(active);
      }
    }

    /** A held timer is not the one being processed. */
    lemma WhereIs(t: Timer)
      requires Valid() && t in held
      ensures t != tCurr
    {
      assert WellPlaced(t);
    }

    /** What a callback may do: any number of these things, in any order. */
    method Callback(active: Timer) returns (ghost es: seq<Event>)
      requires Valid() && tCurr == active
      modifies this`freeList, this`free, this`transit, this`records, this`held, records
      ensures Valid() && Grown()
      ensures Run(old(Remaining()), es, Remaining()) && ByCallback(es)
    {
      es := [];
      var n: nat := *;
      while n > 0
        invariant Valid() && tCurr == active && Grown()
        invariant Run(old(Remaining()), es, Remaining()) && ByCallback(es)
      {
        ghost var before := Remaining();
        ghost var more := CallbackStep(active);
        RunAppend(old(Remaining()), es, before, more, Remaining());
        es := es + more;
        n := n - 1;
      }
    }

    /** The current spoke is being drained, and no timer is being processed. */
    ghost predicate BetweenTimers(t: Timer?)
      reads this, records
    {
      && Shape() && transit == null && draining && loose == t && (t != null ==> t in held)
      && (tCurr != null ==> tCurr in records && !tCurr.place.Active?)
    }

    /** Nothing has changed but the notes on the drain. */
    twostate predicate OnlyNoted()
      reads this, records
    {
      && curr == old(curr) && tCurr == old(tCurr) && held == old(held) && records == old(records)
                && transit == old(transit)
      && free == old(free) && freeList == old(freeList)
      && forall r :: r in records ==> unchanged(r)
    }

    twostate lemma DrainKeepsPlaces()
      requires old(Valid()) && OnlyNoted()
      ensures Placed() && FreeListed() && Remaining() == old(Remaining())
    {
      forall r | r in records ensures WellPlaced(r) {
        assert old(WellPlaced(r));
      }
    }

    twostate lemma DrainLoosens()
      requires old(Valid()) && old(tCurr) == null && loose == old(spokes[curr].next) && draining && OnlyNoted()
                && Placed()
      ensures forall r {:trigger LinkedOn(r)} :: r in records ==> LinkedOn(r)
      ensures forall r {:trigger LinkedBack(r)} :: r in held ==> LinkedBack(r)
      ensures loose != null ==> loose in held
    {
      assert old(LinkedOn(spokes[curr]));
      forall r | r in records ensures LinkedOn(r) {
        assert old(LinkedOn(r));
      }
      forall r | r in held ensures LinkedBack(r) {
        assert old(LinkedBack(r));
      }
    }

    /** The drain starts: the head of the spoke is left behind. */
    ghost method StartDrain()
      requires Valid() && tCurr == null
      modifies this`draining, this`loose
      ensures BetweenTimers(spokes[curr].next) && Remaining() == old(Remaining())
    {
      draining, loose := true, spokes[curr].next;
      DrainKeepsPlaces();
      DrainLoosens();
    }

    twostate predicate Started(new t: Timer)
      requires t in old(records)
      reads this, records
    {
      && tCurr == t && loose == null && t in records && t.place == Active
      && t.next == old(t.next) && t.prev == old(t.prev) && t.delta == old(t.delta) == 0
      && t.rounds == old(t.rounds) && t.key == old(t.key)
      && curr == old(curr) && held == old(held) - {t} && records == old(records) && draining == old(draining)
      && free == old(free) && freeList == old(freeList) && transit == old(transit)
      && forall r :: r in records && r != t ==> unchanged(r)
    }

    twostate lemma FireKeepsPlaces(new t: Timer)
      requires t in old(records) && old(BetweenTimers(t)) && Started(t)
      ensures Placed() && FreeListed()
      ensures TicksLeftWas(old(Remaining()), t) && Remaining() == old(Remaining()) - {t}
    {
      assert old(LinkedBack(t)) && old(WellPlaced(t));
      forall r | r in records ensures WellPlaced(r) {
        assert old(WellPlaced(r));
      }
    }

    twostate lemma FireTightens(new t: Timer)
      requires t in old(records) && old(BetweenTimers(t)) && Started(t) && Placed()
      ensures forall r {:trigger LinkedOn(r)} :: r in records ==> LinkedOn(r)
      ensures forall r {:trigger LinkedBack(r)} :: r in held ==> LinkedBack(r)
    {
      assert old(LinkedBack(t)) && old(LinkedOn(t)) && old(WellPlaced(t));
      forall r | r in records ensures LinkedOn(r) {
        assert old(LinkedOn(r));
      }
      forall r | r in held ensures LinkedBack(r) {
        assert old(LinkedBack(r));
      }
    }

    /** The first timer of the spoke fires. */
    method Fire(t: Timer)
      requires BetweenTimers(t) && t.delta == 0
      modifies this`tCurr, this`held, this`loose, t`place
      ensures Valid() && tCurr == t && TicksLeftWas(old(Remaining()), t) && Remaining() == old(Remaining()) - {t}
    {
      tCurr := t;
      held := held - {t};
      loose := null;
      t.place := Active;
      FireKeepsPlaces(t);
      FireTightens(t);
    }

    ghost predicate TicksLeftWas(m: Pending, t: Timer) {
      t in m && m[t] == 0
    }

    twostate predicate Released(new t: Timer)
      requires t in old(records)
      reads this, records
    {
      && tCurr == old(tCurr) == t && loose == old(t.next) && t in records && t.place == Free(|old(free)|)
                && t.key == old(t.key)
      && free == old(free) + [t] && transit == old(transit)
      && curr == old(curr) && held == old(held) && records == old(records) && draining == old(draining)
      && forall r :: r in records && r != t ==> unchanged(r)
    }

    twostate lemma ReleaseKeepsPlaces(new t: Timer)
      requires t in old(records) && old(Valid()) && Released(t)
      ensures Placed() && Remaining() == old(Remaining())
    {
      forall r | r in records ensures WellPlaced(r) {
        assert old(WellPlaced(r));
      }
    }

    twostate lemma ReleaseLoosens(new t: Timer)
      requires t in old(records) && old(Valid()) && Released(t) && Placed()
      ensures forall r {:trigger LinkedOn(r)} :: r in records ==> LinkedOn(r)
      ensures forall r {:trigger LinkedBack(r)} :: r in held ==> LinkedBack(r)
      ensures loose != null ==> loose in held
    {
      assert old(LinkedOn(t)) && old(WellPlaced(t));
      forall r | r in records ensures LinkedOn(r) {
        assert old(LinkedOn(r));
      }
      forall r | r in held ensures LinkedBack(r) {
        assert old(LinkedBack(r));
      }
    }

    /** The processed timer goes to the free list; the next one has nothing before it now. */
    method Release(t: Timer) returns (next: Timer?)
      requires Valid() && tCurr == t
      modifies this`freeList, this`free, this`transit, this`loose, t
      ensures BetweenTimers(next) && Remaining() == old(Remaining())
    {
      next := t.next;
      Done(t);
      loose := next;
      ReleaseKeepsPlaces(t);
      ReleaseLoosens(t);
    }

    /** The first timer of the spoke being drained has the fewest turns to go. */
    lemma {:induction false} FirstIsLeast(r: Timer)
      requires BetweenTimers(loose) && r in held && r.place == OnSpoke(curr)
      ensures loose != null && r.rounds >= loose.rounds
      decreases set x | x in held && x.key < r.key
    {
      assert LinkedBack(r);
      if r != loose {
        assert WellPlaced(r.prev);
        ghost var below := set x | x in held && x.key < r.prev.key;
        assert r.prev !in below && forall x :: x in below ==> x.key < r.key;
        FirstIsLeast(r.prev);
      }
    }

    /** No timer is due any more, so time may advance. */
    lemma NoneDue(t: Timer?)
      requires BetweenTimers(t) && (t != null ==> t.delta > 0)
      ensures Allowed(Remaining(), Advanced)
      ensures forall r :: r in records && r.place == OnSpoke(curr) ==> r.rounds > 0
    {
      assert forall r :: r in records && r.place == OnSpoke(curr) ==> WellPlaced(r) && r in held;
      forall r | r in held ensures TicksLeft(r) > 0 && (r.place == OnSpoke(curr) ==> r.rounds > 0) {
        assert WellPlaced(r);
        if r.place == OnSpoke(curr) {
          FirstIsLeast(r);
          assert LinkedBack(t);
        }
      }
    }

    /** The list head takes the place of the last processed timer, one turn of its spoke is
        over, and the next spoke is current. */
    twostate predicate Closed(new t: Timer?)
      requires old(Placed()) && (t != null ==> t in old(records) && t in records)
      reads this, records
    {
      var head := spokes[old(curr)];
      && tCurr == null && !draining && loose == null
      && curr == (if old(curr) + 1 >= WHEEL_SIZE then 0 else old(curr) + 1)
      && held == old(held) && records == old(records) && transit == old(transit)
      && free == old(free) && freeList == old(freeList)
      && head in records && head.next == t && head.prev == old(head.prev)
      && (t != null ==> t.prev == head && t.next == old(t.next) && t.delta == old(t.delta) - 1)
      && (forall r :: r in old(records) && r != head && r != t ==>
            r in records && r.next == old(r.next) && r.prev == old(r.prev) && r.delta == old(r.delta))
      && (forall r :: r in old(records) ==>
            r in records && r.place == old(r.place) && r.key == old(r.key)
            && r.rounds == old(r.rounds) - if old(r.place) == OnSpoke(old(curr)) then 1 else 0)
    }

    twostate lemma CloseKeepsPlaces(new t: Timer?)
      requires t != null ==> t in old(records) && t in records
      requires old(BetweenTimers(t)) && Closed(t)
      ensures Placed() && FreeListed()
      ensures forall r :: r in held ==> TicksLeft(r) == old(TicksLeft(r)) - 1
    {
      forall r | r in records ensures WellPlaced(r) {
        assert old(WellPlaced(r));
      }
    }

    twostate lemma AllLoseOne()
      requires old(Placed()) && Placed() && old(Allowed(Remaining(), Advanced))
      requires held == old(held) && forall r :: r in held ==> TicksLeft(r) == old(TicksLeft(r)) - 1
      ensures Remaining() == Next(old(Remaining()), Advanced)
    {
    }

    twostate lemma CloseKeepsLinks(new t: Timer?)
      requires t != null ==> t in old(records) && t in records
      requires old(BetweenTimers(t)) && Closed(t) && Placed()
      ensures forall r {:trigger LinkedOn(r)} :: r in records ==> LinkedOn(r)
      ensures forall r {:trigger LinkedBack(r)} :: r in held ==> LinkedBack(r)
    {
      assert t != null ==> old(LinkedBack(t)) && old(WellPlaced(t));
      forall r | r in records ensures LinkedOn(r) {
        assert old(LinkedOn(r)) && old(WellPlaced(r));
      }
      forall r | r in held ensures LinkedBack(r) {
        assert old(LinkedBack(r)) && old(WellPlaced(r)) && old(WellPlaced(r.prev));
      }
    }

    ghost method EndTurn()
      requires forall r :: r in records && r.place == OnSpoke(curr) ==> r.rounds > 0
      modifies records`rounds
      ensures forall r :: r in records ==> r.rounds == old(r.rounds) - if r.place == OnSpoke(curr) then 1 else 0
    {
      forall r | r in records && r.place == OnSpoke(curr) {
        r.rounds := r.rounds - 1;
      }
    }

    /** The end of a tick. */
    method Close(t: Timer?)
      requires BetweenTimers(t) && (t != null ==> t.delta > 0)
      modifies this`curr, this`tCurr, this`draining, this`loose, records
      ensures Valid() && tCurr == null && records == old(records)
      ensures Allowed(old(Remaining()), Advanced) && Remaining() == Next(old(Remaining()), Advanced)
    {
      NoneDue(t);
      RestoreHead(t);
      CloseKeepsPlaces(t);
      CloseKeepsLinks(t);
      AllLoseOne();
    }

    method RestoreHead(t: Timer?)
      requires Placed() && (t != null ==> t in held && t.delta > 0)
      requires forall r :: r in records && r.place == OnSpoke(curr) ==> r.rounds > 0
      modifies this`curr, this`tCurr, this`draining, this`loose, records
      ensures Closed(t)
    {
      EndTurn();
      assert t != spokes[curr];
      tCurr := null;
      spokes[curr].next := t;
      if t != null {
        t.prev := spokes[curr];
        t.delta := t.delta - 1;
      }
      draining, loose := false, null;
      curr := curr + 1;
      if curr >= WHEEL_SIZE {
        curr := 0;
      }
    }

    /** One due timer: it fires, its callback runs, and its record is given back. */
    method FireOne(t: Timer) returns (next: Timer?, ghost es: seq<Event>)
      requires BetweenTimers(t) && t.delta == 0
      modifies this`tCurr, this`loose, this`freeList, this`free, this`transit, this`records, this`held, records
      ensures BetweenTimers(next) && Grown()
      ensures Run(old(Remaining()), es, Remaining()) && DuringDrain(es)
      ensures OnCurrent(Remaining()) < OnCurrent(old(Remaining()))
    {
      Fire(t);
      RunOne(old(Remaining()), Fired(t));
      ghost var afterFiring := Remaining();
      es := Callback(t);
      CallbackAddsNone(afterFiring, es);
      RunAppend(old(Remaining()), [Fired(t)], afterFiring, es, Remaining());
      es := [Fired(t)] + es;
      next := Release(t);
      assert t in OnCurrent(old(Remaining())) && t !in OnCurrent(Remaining());
    }

    /** All due timers: what the loop over the current spoke does. */
    method Drain() returns (t: Timer?, ghost drain: seq<Event>)
      requires Valid() && tCurr == null
      modifies this`tCurr, this`draining, this`loose, this`freeList, this`free, this`transit, this`records,
               this`held, records
      ensures BetweenTimers(t) && (t != null ==> t.delta > 0) && Grown()
      ensures DuringDrain(drain) && Run(old(Remaining()), drain, Remaining())
    {
      t := spokes[curr].next;
      StartDrain();
      drain := [];
      while t != null && t.delta == 0
        invariant BetweenTimers(t) && Grown()
        invariant DuringDrain(drain) && Run(old(Remaining()), drain, Remaining())
        decreases OnCurrent(Remaining())
      {
        ghost var before := Remaining();
        ghost var es;
        t, es := FireOne(t);
        RunAppend(old(Remaining()), drain, before, es, Remaining());
        drain := drain + es;
      }
    }

    /** One round of timer_tick: the due timers fire, their callbacks run, and time advances. */
    method Tick() returns (ghost drain: seq<Event>)
      requires Valid() && tCurr == null
      modifies this`curr, this`tCurr, this`draining, this`loose, this`freeList, this`free, this`transit,
               this`records, this`held, records
      ensures Valid() && tCurr == null && Grown()
      ensures DuringDrain(drain) && Run(old(Remaining()), drain + [Advanced], Remaining())
    {
      var t;
      t, drain := Drain();
      ghost var drained := Remaining();
      Close(t);
      RunOne(drained, Advanced);
      RunAppend(old(Remaining()), drain, drained, [Advanced], Remaining());
    }

    /** timer_tick, when the clock has moved on by this many intervals. */
    method TimerTick(intervals: nat) returns (ghost es: seq<Event>)
      requires Valid() && tCurr == null
      modifies this`curr, this`tCurr, this`draining, this`loose, this`freeList, this`free, this`transit,
               this`records, this`held, records
      ensures Valid() && tCurr == null && Grown()
      ensures Run(old(Remaining()), es, Remaining()) && Ticks(es) == intervals
    {
      es := [];
      var n := 0;
      while n < intervals
        invariant n <= intervals && Ticks(es) == n
        invariant Valid() && tCurr == null && Grown()
        invariant Run(old(Remaining()), es, Remaining())
      {
        ghost var before := Remaining();
        ghost var drain := Tick();
        OneTick(drain);
        RunAppend(old(Remaining()), es, before, drain + [Advanced], Remaining());
        es := es + (drain + [Advanced]);
        n := n + 1;
      }
    }
  }

  /** Events a callback can cause. */
  ghost predicate ByCallback(es: seq<Event>) {
    forall e :: e in es ==> e.Cancelled? || (e.Scheduled? && e.ticks % WHEEL_SIZE != 0)
  }

  /** Events that can happen while a spoke is drained. */
  ghost predicate DuringDrain(es: seq<Event>) {
    forall e :: e in es ==> e.Fired? || e.Cancelled? || (e.Scheduled? && e.ticks % WHEEL_SIZE != 0)
  }

  /** The timers on the current spoke. */
  ghost function OnCurrent(m: Pending): set<Timer> {
    set t | t in m && m[t] % WHEEL_SIZE == 0
  }

  lemma {:induction false} CallbackAddsNone(m: Pending, es: seq<Event>)
    requires Legal(m, es) && ByCallback(es)
    ensures OnCurrent(Replay(m, es)) <= OnCurrent(m)
    decreases |es|
  {
    if es != [] {
      assert es[0] in es && forall e :: e in es[1..] ==> e in es;
      CallbackAddsNone(Next(m, es[0]), es[1..]);
    }
  }

  lemma {:induction false} OneTick(drain: seq<Event>)
    requires DuringDrain(drain)
    ensures Ticks(drain + [Advanced]) == 1
    decreases |drain|
  {
    if drain == [] {
      assert drain + [Advanced] == [Advanced] && [Advanced][1..] == [];
    } else {
      assert drain[0] in drain && forall e :: e in drain[1..] ==> e in drain;
      assert (drain + [Advanced])[1..] == drain[1..] + [Advanced];
      OneTick(drain[1..]);
    }
  }

  /** Is t cancelled before it fires? */
  ghost predicate CancelledFirst(es: seq<Event>, t: Timer) {
    es != [] && (es[0] == Cancelled(t) || (es[0] != Fired(t) && CancelledFirst(es[1..], t)))
  }

  /** In one tick, the timers that fire are exactly those that were due at its start and have
      not been cancelled before by the callback of one of the others. */
  lemma {:induction false} TickFiresTheDue(m: Pending, drain: seq<Event>, t: Timer)
    requires Legal(m, drain + [Advanced]) && DuringDrain(drain)
    ensures Fired(t) in drain <==> t in m && m[t] == 0 && !CancelledFirst(drain, t)
    decreases |drain|
  {
    if drain == [] {
      assert (drain + [Advanced])[0] == Advanced;
    } else {
      assert drain[0] in drain && forall e :: e in drain <==> e == drain[0] || e in drain[1..];
      assert (drain + [Advanced])[1..] == drain[1..] + [Advanced] && (drain + [Advanced])[0] == drain[0];
      TickFiresTheDue(Next(m, drain[0]), drain[1..], t);
    }
  }

  /** A timer that a callback has cancelled, or that has fired, does not fire in this tick any more,
      even if its record is scheduled again. */
  lemma CancelledDoesNotFire(m: Pending, a: seq<Event>, e: Event, b: seq<Event>, t: Timer)
    requires Legal(m, a + [e] + b + [Advanced]) && DuringDrain(a + [e] + b) && (e == Cancelled(t) || e == Fired(t))
    ensures Fired(t) !in b
  {
    assert a + [e] + b + [Advanced] == a + ([e] + (b + [Advanced]));
    LegalPrefix(m, a, [e] + (b + [Advanced]));
    var before := Replay(m, a);
    assert ([e] + (b + [Advanced]))[1..] == b + [Advanced];
    assert forall x :: x in b ==> x in a + [e] + b;
    TickFiresTheDue(Next(before, e), b, t);
  }
}
