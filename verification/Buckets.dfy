/** The in-memory bucket: its objects are updated in place, as the model prescribes. */
module Buckets {
  import opened Basics
  import opened SortedIndex
  import opened BucketModel
  import opened VersionIds

  class BucketObject {
    const name: string
    ghost const owner: Bucket
    var data: Option<Data>
    // absent until a version is first archived
    var versions: Option<Index<Data>>

    constructor (name: string, ghost owner: Bucket)
      ensures this.name == name && this.owner == owner && Contents() == NO_OBJECT
    {
      this.name, this.owner, data, versions := name, owner, None, None;
    }

    function Contents(): Obj
      reads this
    {
      Obj(data, if versions.Some? then versions.value else Empty())
    }

    /** Moves the current version to the archive and makes `item` current. */
    method Replace(item: Data, versioning: Versioning)
      modifies this
      ensures Contents() == Obj(Some(item), Archived(versioning, old(Contents())))
    {
      if versioning == Enabled {
        if data.Some? {
          if versions.None? {
            versions := Some(Empty());
          }
          versions := Some(Set(versions.value, data.value.versionID, data.value));
        }
      }
      data := Some(item);
    }
  }

  class Bucket {
    const name: string
    const source: VersionSource
    var versioning: Versioning
    var objects: Index<BucketObject>

    constructor (name: string, source: VersionSource)
      ensures Valid() && this.name == name && this.source == source && View() == NEW_BUCKET && objects.at == map[]
    {
      this.name, this.source, versioning, objects := name, source, Never, Empty();
    }

    /** Each object is stored under its name, belongs to this bucket and has a version. */
    ghost predicate Valid()
      reads this, objects.at.Values
    {
      forall k :: k in objects.at ==>
        objects.at[k].name == k && objects.at[k].owner == this && HasVersion(objects.at[k].Contents())
    }

    ghost function View(): State
      reads this, objects.at.Values
    {
      State(versioning, Index(objects.keys, map k | k in objects.at :: objects.at[k].Contents()))
    }

    method SetVersioning(enabled: bool)
      requires Valid()
      modifies `versioning
      ensures Valid() && View() == BucketModel.SetVersioning(old(View()), enabled)
    {
      if enabled {
        versioning := Enabled;
      } else if versioning == Enabled {
        versioning := Suspended;
      }
    }

    ghost function Touched(name: string): set<object>
      reads this
    {
      if name in objects.at then {objects.at[name]} else {}
    }

    method Put(name: string, item: Data) returns (stored: Data)
      requires Valid() && source.Valid()
      modifies this, Touched(name), source, source.gen, source.scratch
      ensures Valid() && source.Valid() && (source.scratch == old(source.scratch) || fresh(source.scratch))
      ensures source.gen.next == old(source.gen.next) + 1
      ensures source.gen.next < COUNTER_LIMIT ==> IsIdNumber(stored.versionID, source.gen.next)
      ensures stored == item.(versionID := stored.versionID)
      ensures View() == BucketModel.Put(old(View()), name, stored)
      ensures forall o :: o in objects.at.Values ==> o in old(objects.at.Values) || fresh(o)
    {
      ghost var v := View();
      var id := source.NextVersion();
      assert Valid() && View() == v;
      stored := item.(versionID := id);
      Install(name, stored);
    }

    /** When only one object changes, the others show as they did. */
    twostate lemma OnlyObjectChanged(name: string)
      requires name in objects.at && versioning == old(versioning) &&
        forall k :: k in old(objects.at) ==> k in objects.at
      requires forall k :: k in objects.at && k != name ==>
        k in old(objects.at) && objects.at[k] == old(objects.at[k]) && unchanged(objects.at[k])
      ensures View() == State(old(View()).versioning,
        Index(objects.keys, old(View()).objects.at[name := objects.at[name].Contents()]))
    {
    }

    /** The rest of put, once the item has its version id. */
    method Install(name: string, item: Data)
      requires Valid()
      modifies this, Touched(name)
      ensures Valid() && View() == BucketModel.Put(old(View()), name, item)
      ensures forall o :: o in objects.at.Values ==> o in old(objects.at.Values) || fresh(o)
    {
      var obj;
      if name in objects.at {
        obj := objects.at[name];
      } else {
        obj := new BucketObject(name, this);
        objects := Set(objects, name, obj);
      }
      obj.Replace(item, versioning);
      OnlyObjectChanged(name);
    }

    /** DELETE without a version id; an id is minted exactly when a marker is made. */
    method Remove(name: string) returns (r: DeleteResult)
      requires Valid() && source.Valid()
      modifies this, Touched(name), source, source.gen, source.scratch
      ensures Valid() && source.Valid() && (source.scratch == old(source.scratch) || fresh(source.scratch))
      ensures source.gen.next == old(source.gen.next) + if r.isDeleteMarker then 1 else 0
      ensures r.isDeleteMarker <==> old(versioning) == Enabled && name in old(objects.at)
      ensures r.isDeleteMarker && source.gen.next < COUNTER_LIMIT ==> IsIdNumber(r.versionID, source.gen.next)
      ensures (View(), r) == BucketModel.Remove(old(View()), name, r.versionID)
      ensures forall o :: o in objects.at.Values ==> o in old(objects.at.Values) || fresh(o)
    {
      if name !in objects.at {
        return NOTHING_DELETED;
      }
      if versioning == Enabled {
        var item := Put(name, Data(name, "", true, [], []));
        r := DeleteResult(true, item.versionID);
      } else {
        Drop(name);
        r := NOTHING_DELETED;
      }
    }

    /** When an object is dropped, the others show as they did. */
    twostate lemma OnlyObjectDropped(name: string)
      requires name in old(objects.at) && objects == Delete(old(objects), name) && versioning == old(versioning)
      requires forall k :: k in objects.at ==> unchanged(objects.at[k])
      ensures View() == old(View()).(objects := Delete(old(View()).objects, name))
    {
    }

    /** Clears the current version, and the object with it if it was the last. */
    method Drop(name: string)
      requires Valid() && name in objects.at
      modifies this, Touched(name)
      ensures Valid() && View() == Keep(old(View()), name, old(objects.at[name].Contents()).(data := None))
      ensures objects.at.Values <= old(objects.at.Values)
    {
      var obj := objects.at[name];
      obj.data := None;
      if obj.versions.None? || |obj.versions.value.keys| == 0 {
        objects := Delete(objects, name);
        OnlyObjectDropped(name);
      } else {
        OnlyObjectChanged(name);
      }
    }

    method RemoveVersion(name: string, id: string) returns (r: DeleteResult)
      requires Valid()
      modifies this, Touched(name)
      ensures Valid() && (View(), r) == BucketModel.RemoveVersion(old(View()), name, id)
      ensures objects.at.Values <= old(objects.at.Values)
    {
      r := NOTHING_DELETED;
      if name !in objects.at {
        return;
      }
      var obj := objects.at[name];
      if obj.data.Some? && obj.data.value.versionID == id {
        r := DeleteResult(obj.data.value.deleteMarker, id);
        Drop(name);
      } else if obj.versions.Some? {
        if id !in obj.versions.value.at {
          return;
        }
        var version := obj.versions.value.at[id];
        r := DeleteResult(version.deleteMarker, version.versionID);
        Unarchive(name, id);
      }
    }

    /** Deletes an archived version, and the object with it if it was the last. */
    method Unarchive(name: string, id: string)
      requires Valid() && name in objects.at && objects.at[name].versions.Some?
      modifies this, Touched(name)
      ensures var o := old(objects.at[name].Contents());
        Valid() && View() == Keep(old(View()), name, o.(archive := Delete(o.archive, id)))
      ensures objects.at.Values <= old(objects.at.Values)
    {
      var obj := objects.at[name];
      obj.versions := Some(Delete(obj.versions.value, id));
      if obj.data.None? && |obj.versions.value.keys| == 0 {
        objects := Delete(objects, name);
        OnlyObjectDropped(name);
      } else {
        OnlyObjectChanged(name);
      }
    }

    /** objectVersion; "" asks for the current version, which may be missing. */
    method ObjectVersion(name: string, id: string) returns (d: Result<Data>)
      requires Valid()
      ensures d == if id == "" then Current(View(), name) else Lookup(View(), name, id)
    {
      if name !in objects.at {
        return Err(NoSuchKey);
      }
      var obj := objects.at[name];
      if id == "" {
        if obj.data.None? { return Err(Panic); }
        if obj.data.value.deleteMarker { return Err(NoSuchKey); }
        return Ok(obj.data.value);
      }
      if obj.data.Some? && obj.data.value.versionID == id {
        return Ok(obj.data.value);
      }
      if obj.versions.None? {
        return Err(NoSuchVersion);
      }
      if id !in obj.versions.value.at {
        return Err(NoSuchVersion);
      }
      return Ok(obj.versions.value.at[id]);
    }
  }

  predicate HasVersion(o: Obj) {
    o.data.Some? || o.archive.keys != []
  }
}
