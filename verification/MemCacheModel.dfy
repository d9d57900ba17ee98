/** The reference protocol of mod_mem_cache, in the build that guards it with a mutex: objects in
    a shared table, handles that requests hold on them, and the steps, each inside one critical
    section, by which any number of threads create, open, remove and release them. */
module MemCacheModel {

  type Id = nat
  type Key = string

  /** cache_object_t. */
  datatype Obj = Obj(key: Key, refcount: nat, cleanup: bool, complete: bool)

  /** How far the release of a handle has come: decrement_refcount reads `complete` without the
      lock, and then has two critical sections, the first of them only for incomplete objects. */
  datatype Phase = Working | Dropping | Releasing

  datatype Handle = Handle(obj: Id, phase: Phase)

  /** The objects that are allocated, the table, the handles, how often objects have been freed,
      and whether the table has been freed. */
  datatype State = State(
    objs: map<Id, Obj>, table: map<Key, Id>, handles: map<nat, Handle>, frees: multiset<Id>, down: bool)

  datatype Event =
    | Create(h: nat, id: Id, key: Key, victims: seq<Id>)
    | Complete(h: nat)
    | Open(h: nat, key: Key)
    | RemoveEntity(h: nat)
    | RemoveUrl(key: Key)
    | BeginRelease(h: nat)
    | Drop(h: nat)
    | Release(h: nat)
    | Shutdown(order: seq<Id>)

  // ------------------------------------------------------------------ steps

  predicate InTable(s: State, id: Id) {
    id in s.objs && s.objs[id].key in s.table && s.table[s.objs[id].key] == id
  }

  /** cleanup_cache_object. */
  function Free(s: State, id: Id): State
    requires id in s.objs
  {
    s.(objs := s.objs - {id}, frees := s.frees + multiset{id})
  }

  function Mark(s: State, id: Id): State
    requires id in s.objs
  {
    s.(objs := s.objs[id := s.objs[id].(cleanup := true)])
  }

  /** Takes an object out of the table for good: it is freed, unless somebody holds it. */
  function Expel(s: State, id: Id): State
    requires id in s.objs
  {
    var s1 := s.(table := s.table - {s.objs[id].key});
    if s.objs[id].refcount == 0 then Free(s1, id) else Mark(s1, id)
  }

  /** What decrement_refcount and remove_entity do to an object that is still in the table. */
  function Unlist(s: State, id: Id): State
    requires id in s.objs
  {
    if s.objs[id].cleanup then s else Mark(s.(table := s.table - {s.objs[id].key}), id)
  }

  function ExpelAll(s: State, ids: seq<Id>): State
    requires Evictable(s, ids)
    decreases |ids|
  {
    if |ids| == 0 then s else ExpelAll(Expel(s, ids[0]), ids[1..])
  }

  /** The table is made of different objects, so these can be thrown out one after the other. */
  predicate Evictable(s: State, ids: seq<Id>)
    decreases |ids|
  {
    |ids| == 0 || (InTable(s, ids[0]) && Evictable(Expel(s, ids[0]), ids[1..]))
  }

  function SetPhase(s: State, h: nat, p: Phase): State
    requires h in s.handles
  {
    s.(handles := s.handles[h := s.handles[h].(phase := p)])
  }

  predicate Enabled(s: State, e: Event) {
    match e
    case Create(h, id, key, victims) =>
      !s.down && h !in s.handles && id !in s.objs && id !in s.frees && (key !in s.table ==> Evictable(s, victims))
    case Complete(h) => h in s.handles && s.handles[h].phase.Working?
    case Open(h, key) => !s.down && h !in s.handles
    case RemoveEntity(h) => h in s.handles && s.handles[h].phase.Working?
    case RemoveUrl(key) => !s.down
    case BeginRelease(h) => h in s.handles && s.handles[h].phase.Working?
    case Drop(h) => h in s.handles && s.handles[h].phase.Dropping?
    case Release(h) => h in s.handles && s.handles[h].phase.Releasing?
    case Shutdown(order) => !s.down && Evictable(s, order) && ExpelAll(s, order).table == map[]
  }

  ghost function Step(s: State, e: Event): State
    requires Inv(s) && Enabled(s, e)
  {
    match e
    case Create(h, id, key, victims) =>
      // The second of two threads that create the same object defers to the first.
      if key in s.table then s.(frees := s.frees + multiset{id})
      else
        var s1 := ExpelAll(s, victims);
        s1.(objs := s1.objs[id := Obj(key, 1, false, false)], table := s1.table[key := id],
            handles := s1.handles[h := Handle(id, Working)])
    case Complete(h) =>
      var id := s.handles[h].obj;
      s.(objs := s.objs[id := s.objs[id].(complete := true)])
    case Open(h, key) =>
      if key in s.table && s.objs[s.table[key]].complete then
        var id := s.table[key];
        s.(objs := s.objs[id := s.objs[id].(refcount := s.objs[id].refcount + 1)],
           handles := s.handles[h := Handle(id, Working)])
      else s
    case RemoveEntity(h) => Unlist(s, s.handles[h].obj)
    case RemoveUrl(key) => if key in s.table then Expel(s, s.table[key]) else s
    case BeginRelease(h) => SetPhase(s, h, if s.objs[s.handles[h].obj].complete then Releasing else Dropping)
    case Drop(h) => SetPhase(Unlist(s, s.handles[h].obj), h, Releasing)
    case Release(h) =>
      var id := s.handles[h].obj;
      assert ObjOk(s, id) && h in Holders(s, id);
      var o := s.objs[id].(refcount := s.objs[id].refcount - 1);
      var s1 := s.(objs := s.objs[id := o], handles := s.handles - {h});
      if o.cleanup && o.refcount == 0 then Free(s1, id) else s1
    case Shutdown(order) => ExpelAll(s, order).(down := true)
  }

  // ------------------------------------------------------------------ what is kept

  ghost function Holders(s: State, id: Id): set<nat> {
    set h | h in s.handles && s.handles[h].obj == id
  }

  /** An object is allocated exactly while it is in the table or held, an object marked for
      cleanup is not in the table, and the count is right. */
  ghost predicate ObjOk(s: State, id: Id) {
    id in s.objs ==>
      && s.objs[id].refcount == |Holders(s, id)| && (s.objs[id].cleanup <==> !InTable(s, id))
      && (s.objs[id].cleanup ==> s.objs[id].refcount > 0) && id !in s.frees
  }

  predicate EntriesOk(s: State) {
    forall key :: key in s.table ==> s.table[key] in s.objs && s.objs[s.table[key]].key == key
  }

  /** Nobody holds an object that has been freed. */
  predicate HandlesOk(s: State) {
    forall h :: h in s.handles ==> s.handles[h].obj in s.objs
  }

  ghost predicate Inv(s: State) {
    && (forall id :: ObjOk(s, id)) && EntriesOk(s) && HandlesOk(s)
    && (forall id :: s.frees[id] <= 1)
    && (s.down ==> s.table == map[])
  }

  /** An empty cache. */
  ghost function Init(): (s: State)
    ensures Inv(s)
  {
    var s := State(map[], map[], map[], multiset{}, false);
    assert forall id :: ObjOk(s, id);
    s
  }

  // ------------------------------------------------------------------ every step keeps it

  lemma UnlistKeeps(s: State, id: Id)
    requires Inv(s) && id in s.objs && Holders(s, id) != {}
    ensures Inv(Unlist(s, id)) && Unlist(s, id).objs.Keys == s.objs.Keys && Unlist(s, id).handles == s.handles
    ensures Unlist(s, id).objs[id].cleanup
  {
    var s1 := Unlist(s, id);
    assert ObjOk(s, id);
    forall x ensures ObjOk(s1, x) {
      assert ObjOk(s, x) && Holders(s1, x) == Holders(s, x);
    }
  }

  lemma ExpelKeeps(s: State, id: Id)
    requires Inv(s) && InTable(s, id)
    ensures Inv(Expel(s, id)) && Expel(s, id).handles == s.handles
  {
    var s1 := Expel(s, id);
    assert ObjOk(s, id);
    forall x ensures ObjOk(s1, x) && s1.frees[x] <= 1 {
      assert ObjOk(s, x) && Holders(s1, x) == Holders(s, x) && s.frees[x] <= 1;
    }
    forall h | h in s.handles ensures s.handles[h].obj in s1.objs {
      assert h in Holders(s, s.handles[h].obj);
    }
  }

  /** Evictions throw out objects of the table, and mark or free them. */
  lemma {:induction false} ExpelAllKeeps(s: State, ids: seq<Id>)
    requires Inv(s) && Evictable(s, ids)
    ensures var s1 := ExpelAll(s, ids);
      && Inv(s1) && s1.handles == s.handles && s1.down == s.down && s1.table.Keys <= s.table.Keys
      && s1.objs.Keys <= s.objs.Keys && forall x :: x in s1.frees ==> x in s.frees || x in s.objs
    decreases |ids|
  {
    if |ids| > 0 {
      ExpelKeeps(s, ids[0]);
      ExpelAllKeeps(Expel(s, ids[0]), ids[1..]);
    }
  }

  lemma CreateKeeps(s: State, h: nat, id: Id, key: Key, victims: seq<Id>)
    requires Inv(s) && Enabled(s, Create(h, id, key, victims))
    ensures Inv(Step(s, Create(h, id, key, victims)))
  {
    var after := Step(s, Create(h, id, key, victims));
    if key !in s.table {
      ExpelAllKeeps(s, victims);
      InsertKeeps(ExpelAll(s, victims), h, id, key);
    } else {
      forall x ensures ObjOk(after, x) {
        assert ObjOk(s, x) && Holders(after, x) == Holders(s, x);
      }
    }
  }

  lemma InsertKeeps(s: State, h: nat, id: Id, key: Key)
    requires Inv(s) && !s.down && h !in s.handles && id !in s.objs && id !in s.frees && key !in s.table
    ensures Inv(s.(objs := s.objs[id := Obj(key, 1, false, false)], table := s.table[key := id],
                   handles := s.handles[h := Handle(id, Working)]))
  {
    var after := s.(objs := s.objs[id := Obj(key, 1, false, false)], table := s.table[key := id],
                    handles := s.handles[h := Handle(id, Working)]);
    assert Holders(after, id) == {h};
    forall x ensures ObjOk(after, x) {
      assert ObjOk(s, x) && (x != id ==> Holders(after, x) == Holders(s, x));
    }
  }

  lemma OpenKeeps(s: State, h: nat, key: Key)
    requires Inv(s) && Enabled(s, Open(h, key))
    ensures Inv(Step(s, Open(h, key)))
  {
    var after := Step(s, Open(h, key));
    if key in s.table && s.objs[s.table[key]].complete {
      var id := s.table[key];
      assert ObjOk(s, id) && Holders(after, id) == Holders(s, id) + {h};
      assert ObjOk(after, id);
      forall x ensures ObjOk(after, x) {
        if x != id {
          assert ObjOk(s, x) && Holders(after, x) == Holders(s, x);
        }
      }
    }
  }

  /** Neither the phase of a handle nor whether an object is complete matters. */
  lemma MarkingKeeps(s: State, after: State)
    requires Inv(s) && after.table == s.table && after.down == s.down && after.frees == s.frees
    requires after.objs.Keys == s.objs.Keys && after.handles.Keys == s.handles.Keys
    requires forall id :: id in s.objs ==> after.objs[id] == s.objs[id].(complete := after.objs[id].complete)
    requires forall h :: h in s.handles ==> after.handles[h].obj == s.handles[h].obj
    ensures Inv(after)
  {
    forall x ensures ObjOk(after, x) {
      assert ObjOk(s, x) && Holders(after, x) == Holders(s, x);
    }
    forall key | key in after.table ensures after.table[key] in after.objs && after.objs[after.table[key]].key == key {
      assert s.table[key] in s.objs;
    }
  }

  lemma ReleaseKeeps(s: State, h: nat)
    requires Inv(s) && Enabled(s, Release(h))
    ensures s.objs[s.handles[h].obj].refcount > 0 && Inv(Step(s, Release(h)))
  {
    var id, after := s.handles[h].obj, Step(s, Release(h));
    assert ObjOk(s, id) && h in Holders(s, id);
    assert Holders(after, id) == Holders(s, id) - {h};
    forall x ensures ObjOk(after, x) && after.frees[x] <= 1 {
      assert ObjOk(s, x) && s.frees[x] <= 1 && (x != id ==> Holders(after, x) == Holders(s, x));
    }
    forall k | k in after.handles ensures after.handles[k].obj in after.objs {
      assert k in Holders(after, after.handles[k].obj);
    }
  }

  lemma ShutdownKeeps(s: State, order: seq<Id>)
    requires Inv(s) && Enabled(s, Shutdown(order))
    ensures Inv(Step(s, Shutdown(order)))
  {
    ExpelAllKeeps(s, order);
    var before, after := ExpelAll(s, order), Step(s, Shutdown(order));
    forall x ensures ObjOk(after, x) {
      assert ObjOk(before, x) && Holders(after, x) == Holders(before, x);
    }
  }

  lemma {:induction false} StepKeepsInv(s: State, e: Event)
    requires Inv(s) && Enabled(s, e)
    ensures Inv(Step(s, e))
  {
    match e
    case Create(h, id, key, victims) => CreateKeeps(s, h, id, key, victims);
    case Complete(h) => MarkingKeeps(s, Step(s, e));
    case Open(h, key) => OpenKeeps(s, h, key);
    case RemoveEntity(h) =>
      assert h in Holders(s, s.handles[h].obj);
      UnlistKeeps(s, s.handles[h].obj);
    case RemoveUrl(key) => if key in s.table { ExpelKeeps(s, s.table[key]); }
    case BeginRelease(h) => MarkingKeeps(s, Step(s, e));
    case Drop(h) =>
      assert h in Holders(s, s.handles[h].obj);
      UnlistKeeps(s, s.handles[h].obj);
      MarkingKeeps(Unlist(s, s.handles[h].obj), Step(s, e));
    case Release(h) => ReleaseKeeps(s, h);
    case Shutdown(order) => ShutdownKeeps(s, order);
  }

  // ------------------------------------------------------------------ all interleavings

  ghost predicate Legal(s: State, es: seq<Event>)
    requires Inv(s)
    decreases |es|
  {
    |es| == 0 || (Enabled(s, es[0]) && (StepKeepsInv(s, es[0]); Legal(Step(s, es[0]), es[1..])))
  }

  ghost function Run(s: State, es: seq<Event>): (after: State)
    requires Inv(s) && Legal(s, es)
    ensures Inv(after)
    decreases |es|
  {
    if |es| == 0 then s else (StepKeepsInv(s, es[0]); Run(Step(s, es[0]), es[1..]))
  }

  function Created(es: seq<Event>): multiset<Id> {
    if |es| == 0 then multiset{}
    else (if es[0].Create? then multiset{es[0].id} else multiset{}) + Created(es[1..])
  }

  /** How often an object has come into being: once per allocation that is still there, and once
      per one that has been freed. */
  function Lives(s: State, id: Id): nat {
    (if id in s.objs then 1 else 0) + s.frees[id]
  }

  lemma {:induction false} ExpelAllLives(s: State, ids: seq<Id>, id: Id)
    requires Inv(s) && Evictable(s, ids)
    ensures Lives(ExpelAll(s, ids), id) == Lives(s, id)
    decreases |ids|
  {
    if |ids| > 0 {
      ExpelKeeps(s, ids[0]);
      ExpelAllLives(Expel(s, ids[0]), ids[1..], id);
    }
  }

  lemma StepLives(s: State, e: Event, id: Id)
    requires Inv(s) && Enabled(s, e)
    ensures Lives(Step(s, e), id) == Lives(s, id) + if e.Create? && e.id == id then 1 else 0
  {
    assert ObjOk(s, id);
    if e.Create? && e.key !in s.table {
      ExpelAllLives(s, e.victims, id);
      ExpelAllKeeps(s, e.victims);
    }
    if e.Shutdown? {
      ExpelAllLives(s, e.order, id);
    }
  }

  lemma {:induction false} RunLives(s: State, es: seq<Event>, id: Id)
    requires Inv(s) && Legal(s, es)
    ensures Lives(Run(s, es), id) == Lives(s, id) + Created(es)[id]
    decreases |es|
  {
    if |es| > 0 {
      StepKeepsInv(s, es[0]);
      StepLives(s, es[0], id);
      RunLives(Step(s, es[0]), es[1..], id);
    }
  }

  /** In every interleaving: an object is allocated exactly while it is in the table or some
      handle refers to it, its count is the number of these handles, one marked for cleanup is
      not in the table, and whatever was created is still allocated or has been freed once. */
  lemma {:induction false} CacheIsSafe(es: seq<Event>, id: Id)
    requires Legal(Init(), es)
    ensures var s := Run(Init(), es);
      && (id in s.objs <==> InTable(s, id) || Holders(s, id) != {})
      && (id in s.objs ==> s.objs[id].refcount == |Holders(s, id)| && (s.objs[id].cleanup ==> !InTable(s, id)))
      && Created(es)[id] == (if id in s.objs then 1 else 0) + s.frees[id] && Created(es)[id] <= 1
  {
    var s := Run(Init(), es);
    RunLives(Init(), es, id);
    assert ObjOk(s, id) && s.frees[id] <= 1;
    if h :| h in Holders(s, id) {
      assert s.handles[h].obj in s.objs;
    }
  }

  /** The objects whose memory a step looks at or changes. */
  function Touched(s: State, e: Event): set<Id> {
    match e
    case Create(_, _, key, victims) => if key in s.table then {s.table[key]} else set id | id in victims
    case Open(_, key) => if key in s.table then {s.table[key]} else {}
    case RemoveUrl(key) => if key in s.table then {s.table[key]} else {}
    case Shutdown(order) => set id | id in order
    case Complete(h) => if h in s.handles then {s.handles[h].obj} else {}
    case RemoveEntity(h) => if h in s.handles then {s.handles[h].obj} else {}
    case BeginRelease(h) => if h in s.handles then {s.handles[h].obj} else {}
    case Drop(h) => if h in s.handles then {s.handles[h].obj} else {}
    case Release(h) => if h in s.handles then {s.handles[h].obj} else {}
  }

  lemma {:induction false} VictimsAreThere(s: State, ids: seq<Id>, id: Id)
    requires Evictable(s, ids) && id in ids
    ensures id in s.objs
    decreases |ids|
  {
    if id != ids[0] {
      VictimsAreThere(Expel(s, ids[0]), ids[1..], id);
    }
  }

  /** No step of any interleaving touches an object that has been freed. */
  lemma {:induction false} NoUseAfterFree(es: seq<Event>, e: Event, id: Id)
    requires Legal(Init(), es) && Enabled(Run(Init(), es), e) && id in Touched(Run(Init(), es), e)
    ensures id in Run(Init(), es).objs && id !in Run(Init(), es).frees
  {
    var s := Run(Init(), es);
    if e.Create? && e.key !in s.table {
      VictimsAreThere(s, e.victims, id);
    }
    if e.Shutdown? {
      VictimsAreThere(s, e.order, id);
    }
    assert ObjOk(s, id);
  }

  /** When all handles have been released and the table is empty, everything has been freed. */
  lemma {:induction false} NothingLeaks(es: seq<Event>, id: Id)
    requires Legal(Init(), es) && Run(Init(), es).handles == map[] && Run(Init(), es).table == map[]
    ensures Run(Init(), es).frees[id] == Created(es)[id]
  {
    CacheIsSafe(es, id);
    assert Holders(Run(Init(), es), id) == {};
  }

  // ------------------------------------------------------------------ failed updates

  /** A handle is released past the first critical section only when its object is complete or
      out of the table, and an object that never became complete is always held. */
  ghost predicate Tidy(s: State) {
    && (forall h :: h in s.handles && s.handles[h].phase.Releasing? && s.handles[h].obj in s.objs
          ==> s.objs[s.handles[h].obj].complete || s.objs[s.handles[h].obj].cleanup)
    && (forall id :: id in s.objs && !s.objs[id].complete ==> Holders(s, id) != {})
  }

  lemma ExpelIsTidy(s: State, id: Id)
    requires Inv(s) && InTable(s, id) && Tidy(s)
    ensures Tidy(Expel(s, id))
  {
    assert ObjOk(s, id);
    assert forall x :: Holders(Expel(s, id), x) == Holders(s, x);
  }

  lemma {:induction false} ExpelAllIsTidy(s: State, ids: seq<Id>)
    requires Inv(s) && Evictable(s, ids) && Tidy(s)
    ensures Tidy(ExpelAll(s, ids))
    decreases |ids|
  {
    if |ids| > 0 {
      ExpelKeeps(s, ids[0]);
      ExpelIsTidy(s, ids[0]);
      ExpelAllIsTidy(Expel(s, ids[0]), ids[1..]);
    }
  }

  lemma CreateIsTidy(s: State, h: nat, id: Id, key: Key, victims: seq<Id>)
    requires Inv(s) && Enabled(s, Create(h, id, key, victims)) && Tidy(s)
    ensures Tidy(Step(s, Create(h, id, key, victims)))
  {
    var after := Step(s, Create(h, id, key, victims));
    if key in s.table {
      assert forall x :: Holders(after, x) == Holders(s, x);
    } else {
      ExpelAllKeeps(s, victims);
      ExpelAllIsTidy(s, victims);
      assert h in Holders(after, id);
      forall x | x in after.objs && !after.objs[x].complete ensures Holders(after, x) != {} {
        assert x != id ==> Holders(after, x) == Holders(ExpelAll(s, victims), x);
      }
    }
  }

  lemma OpenIsTidy(s: State, h: nat, key: Key)
    requires Inv(s) && Enabled(s, Open(h, key)) && Tidy(s)
    ensures Tidy(Step(s, Open(h, key)))
  {
    var after := Step(s, Open(h, key));
    forall x | x in after.objs && !after.objs[x].complete ensures Holders(after, x) != {} {
      assert Holders(after, x) == Holders(s, x);
    }
  }

  lemma ReleaseIsTidy(s: State, h: nat)
    requires Inv(s) && Enabled(s, Release(h)) && Tidy(s)
    ensures Tidy(Step(s, Release(h)))
  {
    var after, id := Step(s, Release(h)), s.handles[h].obj;
    ReleaseKeeps(s, h);
    forall x | x in after.objs && !after.objs[x].complete ensures Holders(after, x) != {} {
      assert ObjOk(after, x) && (x != id ==> Holders(after, x) == Holders(s, x));
    }
  }

  /** Steps that keep all holders, and make no object less complete or less marked. */
  lemma MarkingIsTidy(s: State, after: State)
    requires Tidy(s) && after.objs.Keys <= s.objs.Keys && after.handles.Keys == s.handles.Keys
    requires forall id :: id in after.objs ==> (s.objs[id].complete ==> after.objs[id].complete)
                                               && (s.objs[id].cleanup ==> after.objs[id].cleanup)
    requires forall h :: h in s.handles ==> after.handles[h].obj == s.handles[h].obj
    requires forall h :: h in s.handles && after.handles[h].phase.Releasing? && after.handles[h].obj in after.objs ==>
               s.handles[h].phase.Releasing? || after.objs[after.handles[h].obj].complete
               || after.objs[after.handles[h].obj].cleanup
    ensures Tidy(after)
  {
    forall x | x in after.objs && !after.objs[x].complete ensures Holders(after, x) != {} {
      assert Holders(after, x) == Holders(s, x);
    }
  }

  lemma StepIsTidy(s: State, e: Event)
    requires Inv(s) && Enabled(s, e) && Tidy(s)
    ensures Tidy(Step(s, e))
  {
    match e
    case Create(h, id, key, victims) => CreateIsTidy(s, h, id, key, victims);
    case RemoveUrl(key) => if key in s.table { ExpelIsTidy(s, s.table[key]); }
    case Open(h, key) => OpenIsTidy(s, h, key);
    case Release(h) => ReleaseIsTidy(s, h);
    case Complete(h) => MarkingIsTidy(s, Step(s, e));
    case RemoveEntity(h) => MarkingIsTidy(s, Step(s, e));
    case BeginRelease(h) => MarkingIsTidy(s, Step(s, e));
    case Drop(h) => MarkingIsTidy(s, Step(s, e));
    case Shutdown(order) =>
      ExpelAllIsTidy(s, order);
      MarkingIsTidy(ExpelAll(s, order), Step(s, e));
  }

  lemma {:induction false} RunIsTidy(s: State, es: seq<Event>)
    requires Inv(s) && Tidy(s) && Legal(s, es)
    ensures Tidy(Run(s, es))
    decreases |es|
  {
    if |es| > 0 {
      StepKeepsInv(s, es[0]);
      StepIsTidy(s, es[0]);
      RunIsTidy(Step(s, es[0]), es[1..]);
    }
  }

  /** In every interleaving, an object whose caching failed goes away with its last holder, so
      it never keeps its key from being cached again. */
  lemma IncompleteIsHeld(es: seq<Event>, id: Id)
    requires Legal(Init(), es) && id in Run(Init(), es).objs && !Run(Init(), es).objs[id].complete
    ensures Holders(Run(Init(), es), id) != {}
  {
    RunIsTidy(Init(), es);
  }
}
