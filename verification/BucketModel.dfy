/** What the operations of a versioned bucket do to its state, and the laws they obey
    over every run. */
module BucketModel {
  import opened Basics
  import opened Order
  import opened SortedIndex

  datatype Versioning = Never | Enabled | Suspended

  /** One stored version of an object, or a delete marker. */
  datatype Data = Data(name: string, versionID: string, deleteMarker: bool, body: Bytes, hash: Bytes)

  /** An object: its current version and the archive of older ones, by version id. */
  datatype Obj = Obj(data: Option<Data>, archive: Index<Data>)

  datatype State = State(versioning: Versioning, objects: Index<Obj>)

  datatype DeleteResult = DeleteResult(isDeleteMarker: bool, versionID: string)

  const NO_OBJECT := Obj(None, Empty())
  const NEW_BUCKET := State(Never, Empty())
  const NOTHING_DELETED := DeleteResult(false, "")

  // ---- the operations ----

  function ObjectAt(s: State, name: string): Obj {
    if name in s.objects.at then s.objects.at[name] else NO_OBJECT
  }

  function Archived(versioning: Versioning, o: Obj): Index<Data> {
    if versioning == Enabled && o.data.Some?
    then Set(o.archive, o.data.value.versionID, o.data.value)
    else o.archive
  }

  function Put(s: State, name: string, item: Data): State {
    s.(objects := Set(s.objects, name, Obj(Some(item), Archived(s.versioning, ObjectAt(s, name)))))
  }

  function Marker(name: string, id: string): Data {
    Data(name, id, true, [], [])
  }

  /** An object is kept while it has a version left. */
  function Keep(s: State, name: string, o: Obj): State {
    s.(objects := if o.data.None? && o.archive.keys == [] then Delete(s.objects, name) else Set(s.objects, name, o))
  }

  /** DELETE without a version id; `id` is used when a delete marker is made. */
  function Remove(s: State, name: string, id: string): (State, DeleteResult) {
    if name !in s.objects.at then (s, NOTHING_DELETED)
    else if s.versioning == Enabled then (Put(s, name, Marker(name, id)), DeleteResult(true, id))
    else (Keep(s, name, s.objects.at[name].(data := None)), NOTHING_DELETED)
  }

  function RemoveVersion(s: State, name: string, id: string): (State, DeleteResult) {
    if name !in s.objects.at then (s, NOTHING_DELETED)
    else
      var o := s.objects.at[name];
      if o.data.Some? && o.data.value.versionID == id then
        (Keep(s, name, o.(data := None)), DeleteResult(o.data.value.deleteMarker, id))
      else if id in o.archive.at then
        (Keep(s, name, o.(archive := Delete(o.archive, id))),
         DeleteResult(o.archive.at[id].deleteMarker, o.archive.at[id].versionID))
      else (s, NOTHING_DELETED)
  }

  function SetVersioning(s: State, enabled: bool): State {
    if enabled then s.(versioning := Enabled)
    else if s.versioning == Enabled then s.(versioning := Suspended)
    else s
  }

  /** objectVersion for a non-empty id. */
  function Lookup(s: State, name: string, id: string): Result<Data> {
    if name !in s.objects.at then Err(NoSuchKey)
    else
      var o := s.objects.at[name];
      if o.data.Some? && o.data.value.versionID == id then Ok(o.data.value)
      else if id in o.archive.at then Ok(o.archive.at[id])
      else Err(NoSuchVersion)
  }

  /** The current version of a key, unless it is deleted.  An indexed object without a
      current version makes the original dereference nil. */
  function Current(s: State, name: string): Result<Data> {
    if name !in s.objects.at then Err(NoSuchKey)
    else match s.objects.at[name].data
      case None => Err(Panic)
      case Some(d) => if d.deleteMarker then Err(NoSuchKey) else Ok(d)
  }

  // ---- what a state stands for: per key, a map from version id to data ----

  function Versions(o: Obj): map<string, Data> {
    if o.data.Some? then o.archive.at[o.data.value.versionID := o.data.value] else o.archive.at
  }

  function VersionsOf(s: State, name: string): map<string, Data> {
    Versions(ObjectAt(s, name))
  }

  // ---- the invariant ----

  ghost predicate ArchiveOK(name: string, x: Index<Data>) {
    Sorted(x) && forall v :: v in x.at ==> v != "" && x.at[v].versionID == v && x.at[v].name == name
  }

  /** The archive holds versions of this key; the current version is newer than all of
      them; there is at least one version. */
  ghost predicate ObjectOK(name: string, o: Obj) {
    && ArchiveOK(name, o.archive)
    && (o.data.Some? ==>
          && o.data.value.name == name && o.data.value.versionID != ""
          && forall v :: v in o.archive.at ==> Less(v, o.data.value.versionID))
    && (o.data.None? ==> o.archive.keys != [])
  }

  ghost predicate StateOK(s: State) {
    Sorted(s.objects) && forall k :: k in s.objects.at ==> ObjectOK(k, s.objects.at[k])
  }

  /** Every id in the bucket has been issued: none is above `last`. */
  ghost predicate IssuedUpTo(s: State, last: string) {
    forall k, v :: v in VersionsOf(s, k) ==> AtMost(v, last)
  }

  /** No id names two versions, under one key or two. */
  ghost predicate IdsDistinct(s: State) {
    forall k, l, v :: v in VersionsOf(s, k) && v in VersionsOf(s, l) ==> k == l
  }

  ghost predicate Inv(s: State, last: string) {
    StateOK(s) && IssuedUpTo(s, last) && IdsDistinct(s)
  }

  // ---- one step at a time ----

  lemma EmptyIndex<V>(x: Index<V>)
    requires Sorted(x)
    ensures x.keys == [] <==> x.at == map[]
  {
    HeadMember(x.keys);
    if x.keys == [] {
      assert forall k :: k !in x.at;
    }
  }

  ghost predicate OthersKept(s: State, s': State, name: string) {
    forall k :: k != name ==> VersionsOf(s', k) == VersionsOf(s, k)
  }

  /** Storing a well-formed object under its key. */
  lemma StoreEffect(s: State, name: string, o: Obj)
    requires StateOK(s) && ObjectOK(name, o)
    ensures var s' := s.(objects := Set(s.objects, name, o));
      StateOK(s') && VersionsOf(s', name) == Versions(o) && OthersKept(s, s', name)
  {
    SetSorted(s.objects, name, o);
  }

  /** The same when the object may have lost its last version. */
  lemma KeepEffect(s: State, name: string, o: Obj)
    requires StateOK(s) && ArchiveOK(name, o.archive) && (o.data.Some? || o.archive.keys != [] ==> ObjectOK(name, o))
    ensures var s' := Keep(s, name, o);
      StateOK(s') && VersionsOf(s', name) == Versions(o) && OthersKept(s, s', name)
  {
    if o.data.None? && o.archive.keys == [] {
      DeleteSorted(s.objects, name);
      EmptyIndex(o.archive);
      EmptyIndex(NO_OBJECT.archive);
    } else {
      StoreEffect(s, name, o);
    }
  }

  lemma CurrentNotArchived(o: Obj)
    requires o.data.Some? && forall v :: v in o.archive.at ==> Less(v, o.data.value.versionID)
    ensures o.data.value.versionID !in o.archive.at
    ensures Versions(o) - {o.data.value.versionID} == o.archive.at
  {
    LessIrreflexive(o.data.value.versionID);
  }

  function PutVersions(s: State, name: string): map<string, Data> {
    var o := ObjectAt(s, name);
    if s.versioning == Enabled || o.data.None? then VersionsOf(s, name)
    else VersionsOf(s, name) - {o.data.value.versionID}
  }

  lemma ArchivedEffect(s: State, name: string)
    requires StateOK(s)
    ensures var x := Archived(s.versioning, ObjectAt(s, name)); ArchiveOK(name, x) && x.at == PutVersions(s, name)
  {
    var o := ObjectAt(s, name);
    if o.data.Some? {
      CurrentNotArchived(o);
      SetSorted(o.archive, o.data.value.versionID, o.data.value);
    }
  }

  /** A put under a fresh, newest id adds its version and, unless the bucket is
      versioned, drops the one it replaces.  Nothing else changes. */
  lemma PutEffect(s: State, name: string, item: Data)
    requires StateOK(s) && item.name == name && item.versionID != ""
    requires forall v :: v in VersionsOf(s, name) ==> Less(v, item.versionID)
    ensures var s' := Put(s, name, item);
      && StateOK(s') && OthersKept(s, s', name)
      && VersionsOf(s', name) == PutVersions(s, name)[item.versionID := item]
  {
    ArchivedEffect(s, name);
    StoreEffect(s, name, Obj(Some(item), Archived(s.versioning, ObjectAt(s, name))));
  }

  /** DELETE without an id: on a versioned bucket a marker is added; otherwise the
      current version, whatever it is, goes. */
  lemma RemoveEffect(s: State, name: string, id: string)
    requires StateOK(s) && id != "" && forall v :: v in VersionsOf(s, name) ==> Less(v, id)
    ensures var (s', r) := Remove(s, name, id);
      && StateOK(s') && OthersKept(s, s', name)
      && r == (if s.versioning == Enabled && name in s.objects.at then DeleteResult(true, id)
               else DeleteResult(false, ""))
      && VersionsOf(s', name) ==
           if name !in s.objects.at then map[]
           else if s.versioning == Enabled then VersionsOf(s, name)[id := Data(name, id, true, [], [])]
           else s.objects.at[name].archive.at
  {
    if name in s.objects.at {
      if s.versioning == Enabled {
        PutEffect(s, name, Marker(name, id));
      } else {
        KeepEffect(s, name, s.objects.at[name].(data := None));
      }
    }
  }

  /** On a versioned bucket a DELETE without an id hides the key, says so, and loses
      nothing: the marker has the new id, and every version before is found by its own. */
  lemma MarkerHides(s: State, name: string, id: string)
    requires StateOK(s) && s.versioning == Enabled && name in s.objects.at
    requires id != "" && forall v :: v in VersionsOf(s, name) ==> Less(v, id)
    ensures var (s', r) := Remove(s, name, id);
      && r.isDeleteMarker && r.versionID == id && Current(s', name) == Err(NoSuchKey)
      && Lookup(s', name, id).Ok? && Lookup(s', name, id).value.deleteMarker
      && Lookup(s', name, id).value.versionID == id
      && forall v :: v in VersionsOf(s, name) ==>
        Lookup(s', name, v) == Lookup(s, name, v) == Ok(VersionsOf(s, name)[v])
  {
    var s' := Remove(s, name, id).0;
    RemoveEffect(s, name, id);
    LessIrreflexive(id);
    forall v | v in VersionsOf(s, name)
      ensures Lookup(s', name, v) == Lookup(s, name, v) == Ok(VersionsOf(s, name)[v])
    {
      LookupIsMapLookup(s, name, v);
      LookupIsMapLookup(s', name, v);
    }
  }

  /** DELETE with an id is removal from the map of versions, and reports what it
      removed; an id that names nothing changes nothing. */
  lemma RemoveVersionEffect(s: State, name: string, id: string)
    requires StateOK(s)
    ensures var ((s', r), vs) := (RemoveVersion(s, name, id), VersionsOf(s, name));
      && StateOK(s') && OthersKept(s, s', name)
      && VersionsOf(s', name) == vs - {id}
      && r == (if id in vs then DeleteResult(vs[id].deleteMarker, id) else NOTHING_DELETED)
      && (id !in vs ==> s' == s)
  {
    if name in s.objects.at {
      var o := s.objects.at[name];
      if o.data.Some? && o.data.value.versionID == id {
        CurrentNotArchived(o);
        KeepEffect(s, name, o.(data := None));
      } else if id in o.archive.at {
        ArchivedRemoval(name, o, id);
        KeepEffect(s, name, o.(archive := Delete(o.archive, id)));
      }
    }
  }

  lemma ArchivedRemoval(name: string, o: Obj, id: string)
    requires ObjectOK(name, o) && id in o.archive.at && (o.data.Some? ==> o.data.value.versionID != id)
    ensures var o' := o.(archive := Delete(o.archive, id));
      && ArchiveOK(name, o'.archive) && (o'.data.Some? || o'.archive.keys != [] ==> ObjectOK(name, o'))
      && Versions(o') == Versions(o) - {id}
  {
    DeleteSorted(o.archive, id);
  }

  /** objectVersion is lookup in the map of versions. */
  lemma LookupIsMapLookup(s: State, name: string, id: string)
    requires StateOK(s)
    ensures Lookup(s, name, id) ==
      if name !in s.objects.at then Err(NoSuchKey)
      else if id in VersionsOf(s, name) then Ok(VersionsOf(s, name)[id])
      else Err(NoSuchVersion)
  {
  }

  // ---- runs ----

  /** A request that may change a bucket. */
  datatype Event =
    | PutEvent(name: string, body: Bytes, hash: Bytes)
    | RemoveEvent(name: string)
    | RemoveVersionEvent(name: string, id: string)
    | VersioningEvent(enabled: bool)

  /** The effect of one request; `id` is the next version id of the generator. */
  function Step(s: State, e: Event, id: string): State {
    match e
    case PutEvent(name, body, hash) => Put(s, name, Data(name, id, false, body, hash))
    case RemoveEvent(name) => Remove(s, name, id).0
    case RemoveVersionEvent(name, v) => RemoveVersion(s, name, v).0
    case VersioningEvent(enabled) => SetVersioning(s, enabled)
  }

  function Run(s: State, events: seq<Event>, ids: seq<string>): State
    requires |events| == |ids|
    decreases |events|
  {
    if events == [] then s else Run(Step(s, events[0], ids[0]), events[1..], ids[1..])
  }

  lemma AtMostLess(a: string, b: string, c: string)
    requires AtMost(a, b) && Less(b, c)
    ensures Less(a, c)
  {
    if a != b { LessTransitive(a, b, c); }
  }

  lemma IdsGrow(s: State, last: string, id: string)
    requires IssuedUpTo(s, last) && Less(last, id)
    ensures forall k, v :: v in VersionsOf(s, k) ==> Less(v, id) && v != id
  {
    forall k, v | v in VersionsOf(s, k)
      ensures Less(v, id) && v != id
    {
      AtMostLess(v, last, id);
      LessIrreflexive(v);
    }
  }

  function Target(e: Event): string {
    match e
    case PutEvent(name, _, _) => name
    case RemoveEvent(name) => name
    case RemoveVersionEvent(name, _) => name
    case VersioningEvent(_) => ""
  }

  /** The only versions after a step are those before it and perhaps one under `id`. */
  ghost predicate OnlyAdds(s: State, s': State, name: string, id: string) {
    forall k, v :: v in VersionsOf(s', k) ==> v in VersionsOf(s, k) || (v == id && k == name)
  }

  lemma StepOK(s: State, e: Event, last: string, id: string)
    requires StateOK(s) && IssuedUpTo(s, last) && Less(last, id)
    ensures StateOK(Step(s, e, id)) && OnlyAdds(s, Step(s, e, id), Target(e), id)
  {
    IdsGrow(s, last, id);
    match e
    case PutEvent(name, body, hash) => PutEffect(s, name, Data(name, id, false, body, hash));
    case RemoveEvent(name) => RemoveEffect(s, name, id);
    case RemoveVersionEvent(name, v) => RemoveVersionEffect(s, name, v);
    case VersioningEvent(enabled) =>
  }

  /** Whether a request mints a version id. */
  predicate Mints(s: State, e: Event) {
    e.PutEvent? || (e.RemoveEvent? && s.versioning == Enabled && e.name in s.objects.at)
  }

  /** A request that mints no id adds no version. */
  lemma StepWithoutId(s: State, e: Event, id: string)
    requires StateOK(s) && !Mints(s, e)
    ensures StateOK(Step(s, e, id)) && forall k, v :: v in VersionsOf(Step(s, e, id), k) ==> v in VersionsOf(s, k)
  {
    match e
    case PutEvent(_, _, _) =>
    case RemoveEvent(name) =>
      if name in s.objects.at { KeepEffect(s, name, s.objects.at[name].(data := None)); }
    case RemoveVersionEvent(name, v) => RemoveVersionEffect(s, name, v);
    case VersioningEvent(_) =>
  }

  lemma AddedIsNew(s: State, s': State, last: string, name: string, id: string)
    requires IssuedUpTo(s, last) && IdsDistinct(s) && Less(last, id) && OnlyAdds(s, s', name, id)
    ensures IssuedUpTo(s', id) && IdsDistinct(s')
  {
    IdsGrow(s, last, id);
    forall k, l, v | v in VersionsOf(s', k) && v in VersionsOf(s', l)
      ensures k == l
    {
      if v == id {
        assert Less(v, id) <==> Less(id, id);
        LessIrreflexive(id);
      }
    }
  }

  /** Every step keeps the invariant, given a fresh id above all earlier ones. */
  lemma StepKeepsInv(s: State, e: Event, last: string, id: string)
    requires Inv(s, last) && Less(last, id)
    ensures Inv(Step(s, e, id), id)
  {
    StepOK(s, e, last, id);
    AddedIsNew(s, Step(s, e, id), last, Target(e), id);
  }

  /** What versioning was set to last, if ever. */
  function LastSetting(events: seq<Event>): Option<bool> {
    if events == [] then None
    else
      var e := events[|events| - 1];
      if e.VersioningEvent? then Some(e.enabled) else LastSetting(events[..|events| - 1])
  }

  predicate EverEnabled(events: seq<Event>) {
    VersioningEvent(true) in events
  }

  lemma {:induction false} RunSnoc(s: State, events: seq<Event>, ids: seq<string>)
    requires |events| == |ids| > 0
    ensures var k := |events| - 1; Run(s, events, ids) == Step(Run(s, events[..k], ids[..k]), events[k], ids[k])
    decreases |events|
  {
    if |events| > 1 {
      var k := |events| - 1;
      RunSnoc(Step(s, events[0], ids[0]), events[1..], ids[1..]);
      assert events[..k][1..] == events[1..][..k - 1] && ids[..k][1..] == ids[1..][..k - 1];
    }
  }

  /** Whatever the requests: a bucket that was never enabled is as a new one, even if it
      was suspended; else it is enabled or suspended as was asked for last. */
  lemma {:induction false} VersioningExactly(events: seq<Event>, ids: seq<string>)
    requires |events| == |ids|
    ensures Run(NEW_BUCKET, events, ids).versioning ==
      if !EverEnabled(events) then Never
      else if LastSetting(events) == Some(true) then Enabled else Suspended
    decreases |events|
  {
    if events != [] {
      var k := |events| - 1;
      RunSnoc(NEW_BUCKET, events, ids);
      VersioningExactly(events[..k], ids[..k]);
      assert events == events[..k] + [events[k]];
    }
  }

  function Last(first: string, ids: seq<string>): string {
    if ids == [] then first else ids[|ids| - 1]
  }

  /** In every reachable state: archived ids are below the current one, all ids are
      distinct, every indexed object has a version, and no id is above the last issued. */
  lemma {:induction false} RunKeepsInv(s: State, last: string, events: seq<Event>, ids: seq<string>)
    requires |events| == |ids| && Inv(s, last) && Ascending([last] + ids)
    ensures Inv(Run(s, events, ids), Last(last, ids))
    decreases |events|
  {
    if events != [] {
      var all := [last] + ids;
      assert Less(all[0], all[1]);
      StepKeepsInv(s, events[0], last, ids[0]);
      assert [ids[0]] + ids[1..] == ids == all[1..];
      RunKeepsInv(Step(s, events[0], ids[0]), ids[0], events[1..], ids[1..]);
      assert Last(ids[0], ids[1..]) == Last(last, ids);
    }
  }

  lemma NewBucketOK()
    ensures Inv(NEW_BUCKET, "")
  {
  }

  lemma ReachableStatesOK(events: seq<Event>, ids: seq<string>)
    requires |events| == |ids| && Ascending([""] + ids)
    ensures Inv(Run(NEW_BUCKET, events, ids), Last("", ids))
  {
    NewBucketOK();
    RunKeepsInv(NEW_BUCKET, "", events, ids);
  }

  // ---- while versioning stays enabled nothing is lost ----

  ghost predicate Fetchable(s: State, name: string, id: string, d: Data) {
    id in VersionsOf(s, name) && VersionsOf(s, name)[id] == d
  }

  predicate PutOrRemove(e: Event) {
    e.PutEvent? || e.RemoveEvent?
  }

  lemma EnabledStepKeeps(s: State, e: Event, last: string, id: string, name: string, v: string, d: Data)
    requires Inv(s, last) && Less(last, id) && s.versioning == Enabled && PutOrRemove(e) && Fetchable(s, name, v, d)
    ensures Fetchable(Step(s, e, id), name, v, d) && Step(s, e, id).versioning == Enabled
  {
    IdsGrow(s, last, id);
    if e.PutEvent? {
      PutEffect(s, e.name, Data(e.name, id, false, e.body, e.hash));
    } else {
      RemoveEffect(s, e.name, id);
    }
  }

  /** Over any run of puts and deletes with versioning enabled, whatever was fetchable
      by id stays fetchable by it, unchanged. */
  lemma {:induction false} EnabledRunKeeps(s: State, last: string, events: seq<Event>, ids: seq<string>, name: string,
                                           v: string, d: Data)
    requires |events| == |ids| && Inv(s, last) && Ascending([last] + ids) && s.versioning == Enabled
    requires (forall i :: 0 <= i < |events| ==> PutOrRemove(events[i])) && Fetchable(s, name, v, d)
    ensures Fetchable(Run(s, events, ids), name, v, d)
    decreases |events|
  {
    if events != [] {
      var all := [last] + ids;
      assert Less(all[0], all[1]);
      StepKeepsInv(s, events[0], last, ids[0]);
      EnabledStepKeeps(s, events[0], last, ids[0], name, v, d);
      assert [ids[0]] + ids[1..] == ids == all[1..];
      EnabledRunKeeps(Step(s, events[0], ids[0]), ids[0], events[1..], ids[1..], name, v, d);
    }
  }

  /** Exactly when a put loses a version: the bucket is not versioned (any more) and
      the key has a current one, even one stored while it was. */
  lemma PutLosesExactly(s: State, name: string, item: Data)
    requires StateOK(s) && item.name == name && item.versionID != ""
    requires forall v :: v in VersionsOf(s, name) ==> Less(v, item.versionID)
    ensures (exists v :: v in VersionsOf(s, name) && v !in VersionsOf(Put(s, name, item), name))
            <==> s.versioning != Enabled && ObjectAt(s, name).data.Some?
  {
    PutEffect(s, name, item);
    var o := ObjectAt(s, name);
    if s.versioning != Enabled && o.data.Some? {
      var v := o.data.value.versionID;
      LessIrreflexive(v);
      assert v in VersionsOf(s, name);
      assert v !in VersionsOf(Put(s, name, item), name);
    }
  }

  // ---- objects without a current version ----

  /** Every indexed object has a current version. */
  ghost predicate AllCurrent(s: State) {
    forall k :: k in s.objects.at ==> s.objects.at[k].data.Some?
  }

  /** The two requests after which an object is left without a current version while
      older ones stay archived. */
  predicate Beheads(s: State, e: Event) {
    match e
    case RemoveEvent(name) =>
      s.versioning != Enabled && name in s.objects.at && s.objects.at[name].archive.keys != []
    case RemoveVersionEvent(name, id) =>
      && name in s.objects.at && s.objects.at[name].archive.keys != []
      && s.objects.at[name].data.Some? && s.objects.at[name].data.value.versionID == id
    case _ => false
  }

  /** From a state where every object has a current version, exactly those requests
      lead to one where some object has none. */
  lemma BeheadedExactly(s: State, e: Event, id: string)
    requires StateOK(s) && AllCurrent(s)
    ensures AllCurrent(Step(s, e, id)) <==> !Beheads(s, e)
  {
    var s' := Step(s, e, id);
    if Beheads(s, e) {
      assert s'.objects.at[Target(e)].data.None?;
    }
  }

  // ---- empty buckets ----

  ghost predicate NoVersions(s: State) {
    forall k :: VersionsOf(s, k) == map[]
  }

  lemma HasVersions(name: string, o: Obj)
    requires ObjectOK(name, o)
    ensures Versions(o) != map[]
  {
    EmptyIndex(o.archive);
    if o.data.Some? {
      assert o.data.value.versionID in Versions(o);
    }
  }

  /** The test DeleteBucket makes, no indexed objects, holds exactly when no version is
      left in the bucket. */
  lemma EmptyMeansNoVersions(s: State)
    requires StateOK(s)
    ensures s.objects.keys == [] <==> NoVersions(s)
  {
    EmptyIndex(s.objects);
    EmptyIndex(NO_OBJECT.archive);
    HeadMember(s.objects.keys);
    if s.objects.keys != [] {
      HasVersions(s.objects.keys[0], s.objects.at[s.objects.keys[0]]);
      assert VersionsOf(s, s.objects.keys[0]) != map[];
    }
  }

  /** An entry of a multi-object delete. */
  datatype ObjectID = ObjectID(key: string, versionID: string)

  /** One entry: with a version id that version goes, without one the key is deleted;
      `id` is used when that makes a marker. */
  function DeleteOne(s: State, o: ObjectID, id: string): State {
    if o.versionID != "" then RemoveVersion(s, o.key, o.versionID).0 else Remove(s, o.key, id).0
  }

  function DeleteEach(s: State, os: seq<ObjectID>, ids: seq<string>): State
    requires |os| == |ids|
    decreases |os|
  {
    if os == [] then s
    else DeleteOne(DeleteEach(s, os[..|os| - 1], ids[..|ids| - 1]), os[|os| - 1], ids[|ids| - 1])
  }

  function Named(os: seq<ObjectID>, name: string): set<string> {
    set o | o in os && o.key == name :: o.versionID
  }

  ghost predicate AllVersioned(os: seq<ObjectID>) {
    forall i :: 0 <= i < |os| ==> os[i].versionID != ""
  }

  lemma NamedLast(os: seq<ObjectID>, name: string)
    requires os != []
    ensures var o := os[|os| - 1];
      Named(os, name) == Named(os[..|os| - 1], name) + (if o.key == name then {o.versionID} else {})
  {
    var front, last := os[..|os| - 1], os[|os| - 1];
    forall v
      ensures v in Named(os, name) <==> v in Named(front, name) + (if last.key == name then {last.versionID} else {})
    {
      if v in Named(os, name) {
        var o :| o in os && o.key == name && o.versionID == v;
        assert o == last || o in front;
      }
    }
  }

  /** Deleting a list of versions removes exactly those named, whatever the order. */
  lemma {:induction false} DeletesExactlyNamed(s: State, os: seq<ObjectID>, ids: seq<string>, k: string)
    requires StateOK(s) && |os| == |ids| && AllVersioned(os)
    ensures StateOK(DeleteEach(s, os, ids))
    ensures VersionsOf(DeleteEach(s, os, ids), k) == VersionsOf(s, k) - Named(os, k)
    decreases |os|
  {
    if os != [] {
      var front, last, marks := os[..|os| - 1], os[|os| - 1], ids[..|ids| - 1];
      DeletesExactlyNamed(s, front, marks, k);
      RemoveVersionEffect(DeleteEach(s, front, marks), last.key, last.versionID);
      NamedLast(os, k);
      RemoveTwice(VersionsOf(s, k), Named(front, k), if last.key == k then {last.versionID} else {});
      RemoveTwice(VersionsOf(DeleteEach(s, front, marks), k), {}, {});
    } else {
      assert Named(os, k) == {};
      RemoveTwice(VersionsOf(s, k), {}, {});
    }
  }

  lemma RemoveTwice<K, V>(m: map<K, V>, x: set<K>, y: set<K>)
    ensures (m - x) - y == m - (x + y) && m - {} == m
  {
  }

  lemma RemoveKeysEmpty<K, V>(m: map<K, V>, x: set<K>)
    ensures m - x == map[] <==> m.Keys <= x
  {
    if m.Keys <= x {
      assert forall k :: k !in m - x;
    } else {
      var k :| k in m.Keys && k !in x;
      assert k in m - x;
    }
  }

  /** A list of versions empties the bucket, so that it can be deleted, exactly when it
      names every version of every key. */
  lemma DeletingEmptiesExactly(s: State, os: seq<ObjectID>, ids: seq<string>)
    requires StateOK(s) && |os| == |ids| && AllVersioned(os)
    ensures DeleteEach(s, os, ids).objects.keys == [] <==> forall k :: VersionsOf(s, k).Keys <= Named(os, k)
  {
    var s' := DeleteEach(s, os, ids);
    DeletesExactlyNamed(s, os, ids, "");
    EmptyMeansNoVersions(s');
    forall k
      ensures VersionsOf(s', k) == map[] <==> VersionsOf(s, k).Keys <= Named(os, k)
    {
      DeletesExactlyNamed(s, os, ids, k);
      RemoveKeysEmpty(VersionsOf(s, k), Named(os, k));
    }
  }
}
