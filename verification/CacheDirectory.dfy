/** What requests can see of the cache is a plain directory: which object each key has, which objects
    are complete, and which object each handle is on. Neither reference counts nor the freeing of
    memory can be told from outside. */
module CacheDirectory {
  import opened MemCacheModel

  /** `phases` is how far the release of each handle has come. */
  datatype Directory = Directory(
    entries: map<Key, Id>, complete: set<Id>, handles: map<nat, Id>, phases: map<nat, Phase>)

  const EMPTY := Directory(map[], {}, map[], map[])

  /** The directory without the entry of an object. */
  function Without(d: Directory, id: Id): Directory {
    d.(entries := map key | key in d.entries && d.entries[key] != id :: d.entries[key])
  }

  function WithoutAll(d: Directory, ids: seq<Id>): Directory {
    d.(entries := map key | key in d.entries && d.entries[key] !in ids :: d.entries[key])
  }

  /** What an event does to the directory. */
  function Next(d: Directory, e: Event): Directory {
    match e
    case Create(h, id, key, victims) =>
      if key in d.entries then d
      else
        var d1 := WithoutAll(d, victims);
        d1.(entries := d1.entries[key := id], handles := d1.handles[h := id], phases := d1.phases[h := Working])
    case Complete(h) => if h in d.handles then d.(complete := d.complete + {d.handles[h]}) else d
    case Open(h, key) =>
      if key in d.entries && d.entries[key] in d.complete
      then d.(handles := d.handles[h := d.entries[key]], phases := d.phases[h := Working])
      else d
    case RemoveEntity(h) => if h in d.handles then Without(d, d.handles[h]) else d
    case RemoveUrl(key) => d.(entries := d.entries - {key})
    case BeginRelease(h) =>
      if h !in d.handles then d
      else d.(phases := d.phases[h := if d.handles[h] in d.complete then Releasing else Dropping])
    case Drop(h) =>
      if h !in d.handles then d else Without(d, d.handles[h]).(phases := d.phases[h := Releasing])
    case Release(h) => d.(handles := d.handles - {h}, phases := d.phases - {h})
    case Shutdown(_) => d.(entries := map[])
  }

  function NextAll(d: Directory, es: seq<Event>): Directory
    decreases |es|
  {
    if |es| == 0 then d else NextAll(Next(d, es[0]), es[1..])
  }

  /** The cache looks like the directory. An object that is gone may count as complete or not. */
  ghost predicate LooksLike(s: State, d: Directory) {
    && s.table == d.entries && s.handles.Keys == d.handles.Keys == d.phases.Keys
    && (forall h :: h in s.handles ==> s.handles[h] == Handle(d.handles[h], d.phases[h]))
    && (forall id :: id in s.objs ==> (s.objs[id].complete <==> id in d.complete))
    && (forall id :: id in d.complete ==> id in s.objs || id in s.frees)
  }

  lemma UnlistLooks(s: State, d: Directory, id: Id)
    requires Inv(s) && LooksLike(s, d) && id in s.objs
    ensures LooksLike(Unlist(s, id), Without(d, id))
  {
    assert ObjOk(s, id);
    assert Unlist(s, id).table == Without(d, id).entries;
  }

  lemma ExpelLooks(s: State, d: Directory, id: Id)
    requires Inv(s) && LooksLike(s, d) && InTable(s, id)
    ensures LooksLike(Expel(s, id), Without(d, id)) && Expel(s, id).table == s.table - {s.objs[id].key}
  {
    assert ObjOk(s, id);
    assert Expel(s, id).table == Without(d, id).entries;
  }

  lemma {:induction false} ExpelAllLooks(s: State, d: Directory, ids: seq<Id>)
    requires Inv(s) && LooksLike(s, d) && Evictable(s, ids)
    ensures LooksLike(ExpelAll(s, ids), WithoutAll(d, ids))
    decreases |ids|
  {
    if |ids| == 0 {
      assert WithoutAll(d, ids).entries == d.entries;
    } else {
      ExpelKeeps(s, ids[0]);
      ExpelLooks(s, d, ids[0]);
      ExpelAllLooks(Expel(s, ids[0]), Without(d, ids[0]), ids[1..]);
      assert WithoutAll(Without(d, ids[0]), ids[1..]).entries == WithoutAll(d, ids).entries;
    }
  }

  lemma CreateLooks(s: State, d: Directory, h: nat, id: Id, key: Key, victims: seq<Id>)
    requires Inv(s) && LooksLike(s, d) && Enabled(s, Create(h, id, key, victims))
    ensures LooksLike(Step(s, Create(h, id, key, victims)), Next(d, Create(h, id, key, victims)))
  {
    if key !in s.table {
      ExpelAllLooks(s, d, victims);
      ExpelAllKeeps(s, victims);
    }
  }

  lemma OpenLooks(s: State, d: Directory, h: nat, key: Key)
    requires Inv(s) && LooksLike(s, d) && Enabled(s, Open(h, key))
    ensures LooksLike(Step(s, Open(h, key)), Next(d, Open(h, key)))
  {
  }

  lemma PhaseLooks(s: State, d: Directory, h: nat, p: Phase)
    requires LooksLike(s, d) && h in s.handles
    ensures LooksLike(SetPhase(s, h, p), d.(phases := d.phases[h := p]))
  {
  }

  lemma RemovalLooks(s: State, d: Directory, e: Event)
    requires Inv(s) && LooksLike(s, d) && Enabled(s, e) && (e.RemoveEntity? || e.RemoveUrl? || e.Drop?)
    ensures LooksLike(Step(s, e), Next(d, e))
  {
    if e.RemoveUrl? {
      if e.key in s.table {
        ExpelLooks(s, d, s.table[e.key]);
        assert Without(d, s.table[e.key]).entries == d.entries - {e.key};
      } else {
        assert d.entries - {e.key} == d.entries;
      }
    } else {
      UnlistLooks(s, d, s.handles[e.h].obj);
      if e.Drop? {
        PhaseLooks(Unlist(s, s.handles[e.h].obj), Without(d, s.handles[e.h].obj), e.h, Releasing);
      }
    }
  }

  lemma ReleaseLooks(s: State, d: Directory, h: nat)
    requires Inv(s) && LooksLike(s, d) && Enabled(s, Release(h))
    ensures LooksLike(Step(s, Release(h)), Next(d, Release(h)))
  {
    ReleaseKeeps(s, h);
  }

  lemma StepLooks(s: State, d: Directory, e: Event)
    requires Inv(s) && LooksLike(s, d) && Enabled(s, e)
    ensures LooksLike(Step(s, e), Next(d, e))
  {
    match e
    case Create(h, id, key, victims) => CreateLooks(s, d, h, id, key, victims);
    case Complete(h) =>
    case Open(h, key) => OpenLooks(s, d, h, key);
    case RemoveEntity(h) => RemovalLooks(s, d, e);
    case RemoveUrl(key) => RemovalLooks(s, d, e);
    case BeginRelease(h) => PhaseLooks(s, d, h, if s.objs[s.handles[h].obj].complete then Releasing else Dropping);
    case Drop(h) => RemovalLooks(s, d, e);
    case Release(h) => ReleaseLooks(s, d, h);
    case Shutdown(order) =>
      ExpelAllLooks(s, d, order);
      assert WithoutAll(d, order).entries == map[];
  }

  lemma {:induction false} RunLooks(s: State, d: Directory, es: seq<Event>)
    requires Inv(s) && LooksLike(s, d) && Legal(s, es)
    ensures LooksLike(Run(s, es), NextAll(d, es))
    decreases |es|
  {
    if |es| > 0 {
      StepKeepsInv(s, es[0]);
      StepLooks(s, d, es[0]);
      RunLooks(Step(s, es[0]), Next(d, es[0]), es[1..]);
    }
  }

  /** In every interleaving the cache looks like the directory. */
  lemma CacheIsDirectory(es: seq<Event>)
    requires Legal(Init(), es)
    ensures LooksLike(Run(Init(), es), NextAll(EMPTY, es))
  {
    RunLooks(Init(), EMPTY, es);
  }

  // ------------------------------------------------------------------ hits

  /** The event leaves the entry of an object alone. */
  predicate Spares(d: Directory, e: Event, key: Key, id: Id) {
    match e
    case Create(_, _, k, victims) => k in d.entries || id !in victims
    case RemoveEntity(h) => h in d.handles ==> d.handles[h] != id
    case RemoveUrl(k) => k != key
    case Drop(h) => h in d.handles ==> d.handles[h] != id
    case Shutdown(_) => false
    case _ => true
  }

  predicate AllSpare(d: Directory, es: seq<Event>, key: Key, id: Id)
    decreases |es|
  {
    |es| == 0 || (Spares(d, es[0], key, id) && AllSpare(Next(d, es[0]), es[1..], key, id))
  }

  lemma {:induction false} EntryStays(d: Directory, es: seq<Event>, key: Key, id: Id)
    requires key in d.entries && d.entries[key] == id && AllSpare(d, es, key, id)
    ensures key in NextAll(d, es).entries && NextAll(d, es).entries[key] == id
    ensures d.complete <= NextAll(d, es).complete
    decreases |es|
  {
    if |es| > 0 {
      EntryStays(Next(d, es[0]), es[1..], key, id);
    }
  }

  lemma {:induction false} NextOn(d: Directory, a: seq<Event>, b: seq<Event>)
    ensures NextAll(d, a + b) == NextAll(NextAll(d, a), b)
    decreases |a|
  {
    if |a| == 0 {
      assert a + b == b;
    } else {
      assert (a + b)[1..] == a[1..] + b && (a + b)[0] == a[0];
      NextOn(Next(d, a[0]), a[1..], b);
    }
  }

  /** A cached object is found: once it has an entry and is complete, and as long as nothing removes or
      evicts it, opening its key gives a handle on it, and it has one more holder. */
  lemma OpenHits(es: seq<Event>, spare: seq<Event>, h: nat, key: Key)
    requires Legal(Init(), es + spare) && Enabled(Run(Init(), es + spare), Open(h, key))
    requires var d := NextAll(EMPTY, es);
      key in d.entries && d.entries[key] in d.complete && AllSpare(d, spare, key, d.entries[key])
    ensures var s, id := Run(Init(), es + spare), NextAll(EMPTY, es).entries[key];
      var after := Step(s, Open(h, key));
      && h in after.handles && after.handles[h].obj == id && Holders(after, id) == Holders(s, id) + {h}
      && id in s.objs && id in after.objs && after.objs[id].refcount == s.objs[id].refcount + 1
  {
    var d := NextAll(EMPTY, es);
    NextOn(EMPTY, es, spare);
    EntryStays(d, spare, key, d.entries[key]);
    CacheIsDirectory(es + spare);
  }

  /** A new object is cached under a key that is free, and found when it is complete. */
  lemma CreateThenComplete(d: Directory, h: nat, id: Id, key: Key, victims: seq<Id>, spare: seq<Event>)
    requires key !in d.entries
    requires var d1 := Next(d, Create(h, id, key, victims));
      AllSpare(d1, spare, key, id) && h in NextAll(d1, spare).handles && NextAll(d1, spare).handles[h] == id
    ensures var after := Next(NextAll(Next(d, Create(h, id, key, victims)), spare), Complete(h));
      key in after.entries && after.entries[key] == id && id in after.complete
  {
    EntryStays(Next(d, Create(h, id, key, victims)), spare, key, id);
  }

  lemma HandleStaysForAStep(s: State, d: Directory, e: Event, h: nat)
    requires Inv(s) && LooksLike(s, d) && Enabled(s, e) && h in d.handles && e != Release(h)
    ensures LooksLike(Step(s, e), Next(d, e)) && h in Next(d, e).handles && Next(d, e).handles[h] == d.handles[h]
  {
    StepLooks(s, d, e);
  }

  lemma {:induction false} HandleStays(s: State, d: Directory, es: seq<Event>, h: nat)
    requires Inv(s) && LooksLike(s, d) && Legal(s, es) && h in d.handles && Release(h) !in es
    ensures h in NextAll(d, es).handles && NextAll(d, es).handles[h] == d.handles[h]
    decreases |es|
  {
    if |es| > 0 {
      assert es[0] in es && forall e :: e in es[1..] ==> e in es;
      HandleStaysForAStep(s, d, es[0], h);
      StepKeepsInv(s, es[0]);
      HandleStays(Step(s, es[0]), Next(d, es[0]), es[1..], h);
    }
  }

  lemma {:induction false} RunOn(s: State, a: seq<Event>, b: seq<Event>)
    requires Inv(s) && Legal(s, a + b)
    ensures Legal(s, a) && Inv(Run(s, a)) && Legal(Run(s, a), b) && Run(s, a + b) == Run(Run(s, a), b)
    decreases |a|
  {
    if |a| == 0 {
      assert a + b == b;
    } else {
      assert (a + b)[1..] == a[1..] + b && (a + b)[0] == a[0];
      StepKeepsInv(s, a[0]);
      RunOn(Step(s, a[0]), a[1..], b);
    }
  }

  /** The handle by which an object has been created is on it until it is released. */
  lemma StillOnIt(before: seq<Event>, h: nat, id: Id, key: Key, victims: seq<Id>, spare: seq<Event>)
    requires Legal(Init(), before + [Create(h, id, key, victims)] + spare) && Release(h) !in spare
    requires key !in NextAll(EMPTY, before).entries
    ensures var d := NextAll(EMPTY, before + [Create(h, id, key, victims)] + spare);
      h in d.handles && d.handles[h] == id
  {
    var created := before + [Create(h, id, key, victims)];
    RunOn(Init(), created, spare);
    CacheIsDirectory(created);
    NextOn(EMPTY, before, [Create(h, id, key, victims)]);
    NextOn(EMPTY, created, spare);
    HandleStays(Run(Init(), created), NextAll(EMPTY, created), spare, h);
  }

  lemma FoundInDirectory(before: seq<Event>, h: nat, id: Id, key: Key, victims: seq<Id>, spare: seq<Event>)
    requires key !in NextAll(EMPTY, before).entries
    requires AllSpare(NextAll(EMPTY, before + [Create(h, id, key, victims)]), spare, key, id)
    requires var d := NextAll(EMPTY, before + [Create(h, id, key, victims)] + spare);
      h in d.handles && d.handles[h] == id
    ensures var d := NextAll(EMPTY, before + [Create(h, id, key, victims)] + spare + [Complete(h)]);
      key in d.entries && d.entries[key] == id && id in d.complete
  {
    var created := before + [Create(h, id, key, victims)];
    NextOn(EMPTY, before, [Create(h, id, key, victims)]);
    NextOn(EMPTY, created, spare);
    NextOn(EMPTY, created + spare, [Complete(h)]);
    CreateThenComplete(NextAll(EMPTY, before), h, id, key, victims, spare);
  }

  /** So over every run: what is created under a key that is free, and completed, is found under it, if
      nothing removes or evicts it before that. */
  lemma CachedIsFound(before: seq<Event>, h: nat, id: Id, key: Key, victims: seq<Id>, spare: seq<Event>,
                      more: seq<Event>, h2: nat)
    requires var created := before + [Create(h, id, key, victims)];
      && Legal(Init(), created + spare + [Complete(h)] + more)
      && Enabled(Run(Init(), created + spare + [Complete(h)] + more), Open(h2, key))
      && key !in NextAll(EMPTY, before).entries && Release(h) !in spare
      && AllSpare(NextAll(EMPTY, created), spare, key, id)
      && AllSpare(NextAll(EMPTY, created + spare + [Complete(h)]), more, key, id)
    ensures var s := Run(Init(), before + [Create(h, id, key, victims)] + spare + [Complete(h)] + more);
      var after := Step(s, Open(h2, key));
      && h2 in after.handles && after.handles[h2].obj == id && Holders(after, id) == Holders(s, id) + {h2}
      && id in s.objs && id in after.objs && after.objs[id].refcount == s.objs[id].refcount + 1
  {
    var created := before + [Create(h, id, key, victims)];
    var completed := created + spare + [Complete(h)];
    assert created + spare + ([Complete(h)] + more) == completed + more;
    RunOn(Init(), created + spare, [Complete(h)] + more);
    StillOnIt(before, h, id, key, victims, spare);
    FoundInDirectory(before, h, id, key, victims, spare);
    OpenHits(completed, more, h2, key);
  }
}
