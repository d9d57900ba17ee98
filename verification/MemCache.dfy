/** The functions of mod_mem_cache that take part in the reference protocol, written as in the
    module. The memory for objects is a map from which freed objects disappear, so that every
    access below is proved to be to an allocated object. */
module MemCache {
  import opened MemCacheModel

  class Cache {
    var objs: map<Id, Obj>
    var table: map<Key, Id>
    var handles: map<nat, Handle>
    var down: bool
    ghost var frees: multiset<Id>

    ghost function View(): State
      reads this
    {
      State(objs, table, handles, frees, down)
    }

    constructor ()
      ensures View() == Init()
    {
      objs, table, handles, frees, down := map[], map[], map[], multiset{}, false;
    }

    /** cleanup_cache_object. */
    method CleanupCacheObject(id: Id)
      requires id in objs
      modifies this`objs, this`frees
      ensures View() == Free(old(View()), id)
    {
      objs := objs - {id};
      frees := frees + multiset{id};
    }

    method SetCleanup(id: Id)
      requires id in objs
      modifies this`objs
      ensures View() == Mark(old(View()), id)
    {
      objs := objs[id := objs[id].(cleanup := true)];
    }

    /** cache_remove, for an object that is in the table; the table must still exist. */
    method CacheRemove(id: Id)
      requires !down && InTable(View(), id)
      modifies this`table
      ensures View() == old(View()).(table := old(table) - {objs[id].key})
    {
      table := table - {objs[id].key};
    }

    /** memcache_cache_free, for an object that the table has just given up. */
    method MemcacheCacheFree(id: Id)
      requires id in objs
      modifies this`objs, this`frees
      ensures View() == if old(objs[id]).refcount == 0 then Free(old(View()), id) else Mark(old(View()), id)
    {
      objs := objs[id := objs[id].(refcount := objs[id].refcount + 1)];
      objs := objs[id := objs[id].(cleanup := true)];
      objs := objs[id := objs[id].(refcount := objs[id].refcount - 1)];
      if objs[id].refcount == 0 {
        CleanupCacheObject(id);
        assert objs == old(objs) - {id};
      } else {
        assert objs == old(objs)[id := old(objs[id]).(cleanup := true)];
      }
    }

    /** cache_insert: it first throws out some objects of its own choice. */
    method CacheInsert(id: Id, obj: Obj, victims: seq<Id>)
      requires !down && Inv(View()) && Evictable(View(), victims) && id !in objs && obj.key !in table
      modifies this`objs, this`frees, this`table
      ensures var s := ExpelAll(old(View()), victims);
        View() == s.(objs := s.objs[id := obj], table := s.table[obj.key := id])
    {
      var i := 0;
      while i < |victims|
        invariant i <= |victims| && !down && Evictable(View(), victims[i..])
        invariant ExpelAll(View(), victims[i..]) == ExpelAll(old(View()), victims)
      {
        assert victims[i..][1..] == victims[i + 1..];
        CacheRemove(victims[i]);
        MemcacheCacheFree(victims[i]);
        i := i + 1;
      }
      objs := objs[id := obj];
      table := table[obj.key := id];
    }

    /** create_entity, from the point where the object is filled in; `id` is its address. */
    method CreateEntity(h: nat, id: Id, key: Key, victims: seq<Id>) returns (ok: bool)
      requires Inv(View()) && Enabled(View(), Create(h, id, key, victims))
      modifies this
      ensures Inv(View()) && View() == Step(old(View()), Create(h, id, key, victims)) && ok == (key !in old(table))
    {
      StepKeepsInv(View(), Create(h, id, key, victims));
      var obj := Obj(key, 1, false, false);
      ok := key !in table;
      if ok {
        CacheInsert(id, obj, victims);
        handles := handles[h := Handle(id, Working)];
        ExpelAllKeeps(old(View()), victims);
      } else {
        // The object has not been published, and its memory is given back.
        frees := frees + multiset{id};
      }
    }

    /** write_body, when the whole body is there. */
    method WriteBodyDone(h: nat)
      requires Inv(View()) && Enabled(View(), Complete(h))
      modifies this`objs
      ensures Inv(View()) && View() == Step(old(View()), Complete(h))
    {
      StepKeepsInv(View(), Complete(h));
      var id := handles[h].obj;
      objs := objs[id := objs[id].(complete := true)];
    }

    /** open_entity. */
    method OpenEntity(h: nat, key: Key) returns (ok: bool)
      requires Inv(View()) && Enabled(View(), Open(h, key))
      modifies this`objs, this`handles
      ensures Inv(View()) && View() == Step(old(View()), Open(h, key))
      ensures ok <==> key in old(table) && old(objs[table[key]].complete)
      ensures ok ==> h in handles && handles[h].obj == old(table[key]) && handles[h].obj in objs
      ensures ok ==> Holders(View(), handles[h].obj) == Holders(old(View()), handles[h].obj) + {h}
      ensures !ok ==> View() == old(View())
    {
      StepKeepsInv(View(), Open(h, key));
      ok := false;
      if key in table {
        var id := table[key];
        if objs[id].complete {
          objs := objs[id := objs[id].(refcount := objs[id].refcount + 1)];
          handles := handles[h := Handle(id, Working)];
          ok := true;
        }
      }
    }

    /** What remove_entity and the first critical section of decrement_refcount have in common. */
    method RemoveUnlessMarked(id: Id)
      requires Inv(View()) && id in objs
      modifies this`objs, this`table
      ensures View() == Unlist(old(View()), id)
    {
      assert ObjOk(View(), id);
      if !objs[id].cleanup {
        CacheRemove(id);
        SetCleanup(id);
      }
    }

    /** remove_entity. */
    method RemoveEntity(h: nat)
      requires Inv(View()) && Enabled(View(), MemCacheModel.RemoveEntity(h))
      modifies this`objs, this`table
      ensures Inv(View()) && View() == Step(old(View()), MemCacheModel.RemoveEntity(h))
    {
      StepKeepsInv(View(), MemCacheModel.RemoveEntity(h));
      RemoveUnlessMarked(handles[h].obj);
    }

    /** remove_url. */
    method RemoveUrl(key: Key)
      requires Inv(View()) && Enabled(View(), MemCacheModel.RemoveUrl(key))
      modifies this`objs, this`table, this`frees
      ensures Inv(View()) && View() == Step(old(View()), MemCacheModel.RemoveUrl(key))
    {
      StepKeepsInv(View(), MemCacheModel.RemoveUrl(key));
      if key in table {
        var id := table[key];
        CacheRemove(id);
        if objs[id].refcount == 0 {
          CleanupCacheObject(id);
        } else {
          SetCleanup(id);
        }
      }
    }

    /** decrement_refcount, up to its unlocked test of `complete`. */
    method BeginRelease(h: nat)
      requires Inv(View()) && Enabled(View(), MemCacheModel.BeginRelease(h))
      modifies this`handles
      ensures Inv(View()) && View() == Step(old(View()), MemCacheModel.BeginRelease(h))
    {
      StepKeepsInv(View(), MemCacheModel.BeginRelease(h));
      var next := if objs[handles[h].obj].complete then Releasing else Dropping;
      handles := handles[h := handles[h].(phase := next)];
    }

    /** The first critical section of decrement_refcount. */
    method Drop(h: nat)
      requires Inv(View()) && Enabled(View(), MemCacheModel.Drop(h))
      modifies this`objs, this`table, this`handles
      ensures Inv(View()) && View() == Step(old(View()), MemCacheModel.Drop(h))
    {
      StepKeepsInv(View(), MemCacheModel.Drop(h));
      RemoveUnlessMarked(handles[h].obj);
      handles := handles[h := handles[h].(phase := Releasing)];
    }

    /** The second critical section of decrement_refcount. */
    method Release(h: nat)
      requires Inv(View()) && Enabled(View(), MemCacheModel.Release(h))
      modifies this`objs, this`frees, this`handles
      ensures Inv(View()) && View() == Step(old(View()), MemCacheModel.Release(h))
    {
      StepKeepsInv(View(), MemCacheModel.Release(h));
      var id := handles[h].obj;
      ReleaseKeeps(View(), h);
      objs := objs[id := objs[id].(refcount := objs[id].refcount - 1)];
      handles := handles - {h};
      if objs[id].cleanup && objs[id].refcount == 0 {
        CleanupCacheObject(id);
      }
    }

    method PopAndClean(id: Id)
      requires !down && InTable(View(), id)
      modifies this`objs, this`table, this`frees
      ensures View() == Expel(old(View()), id)
    {
      CacheRemove(id);
      SetCleanup(id);
      if objs[id].refcount == 0 {
        CleanupCacheObject(id);
        assert objs == old(objs) - {id};
      }
    }

    /** cleanup_cache_mem: pops the objects off the table, in the order that the table chooses. */
    method CleanupCacheMem() returns (ghost order: seq<Id>)
      requires Inv(View()) && !down
      modifies this
      ensures Enabled(old(View()), Shutdown(order)) && Inv(View()) && View() == Step(old(View()), Shutdown(order))
    {
      ghost var s := View();
      order := [];
      while table != map[]
        invariant !down && Inv(View()) && Evictable(s, order) && ExpelAll(s, order) == View()
        decreases |table|
      {
        var key :| key in table;
        var id := table[key];
        ExpelKeeps(View(), id);
        ExpelOneMore(s, order, id);
        PopAndClean(id);
        order := order + [id];
      }
      StepKeepsInv(s, Shutdown(order));
      down := true;
    }
  }

  lemma {:induction false} ExpelOneMore(s: State, ids: seq<Id>, id: Id)
    requires Evictable(s, ids) && InTable(ExpelAll(s, ids), id)
    ensures Evictable(s, ids + [id]) && ExpelAll(s, ids + [id]) == Expel(ExpelAll(s, ids), id)
    decreases |ids|
  {
    if |ids| == 0 {
      assert ids + [id] == [id] && [id][1..] == [];
    } else {
      assert (ids + [id])[1..] == ids[1..] + [id] && (ids + [id])[0] == ids[0];
      ExpelOneMore(Expel(s, ids[0]), ids[1..], id);
    }
  }
}
