/**
 The volume array of a server and the pure edits the client makes to it before
 writing it back.
 */
module Volumes {
  import opened Text

  datatype Volume = Volume(
    id: string,
    name: string,
    sizeGiB: int,
    root: bool,
    storageType: string,
    datastore: string,
    mountPoint: string,
    devicePath: string)

  type Parameters = map<string, string>

  datatype ResizeRequest = ResizeRequest(name: string, sizeGiB: int, params: Parameters, volumeId: string)

  const PARAM_SERVER_ID := "morpheus.serverId"

  const PARAM_HOST_ID := "morpheus.hostId"

  const PARAM_INSTANCE_ID := "morpheus.instanceId"

  const PARAM_STORAGE_TYPE := "morpheus.storageType"

  const PARAM_STORAGE_TYPE_ID := "morpheus.storageTypeId"

  const PARAM_DATASTORE_ID := "morpheus.datastoreId"

  const DEFAULT_STORAGE_TYPE := "38"

  /** A map read: absent keys give the empty string. */
  function Param(params: Parameters, key: string): string {
    if key in params then params[key] else ""
  }

  function StorageClassServerID(params: Parameters): string {
    if !Blank(Param(params, PARAM_SERVER_ID)) then Trim(Param(params, PARAM_SERVER_ID))
    else if !Blank(Param(params, PARAM_HOST_ID)) then Trim(Param(params, PARAM_HOST_ID))
    else Trim(Param(params, PARAM_INSTANCE_ID))
  }

  function StorageClassStorageType(params: Parameters): string {
    if !Blank(Param(params, PARAM_STORAGE_TYPE)) then Trim(Param(params, PARAM_STORAGE_TYPE))
    else if !Blank(Param(params, PARAM_STORAGE_TYPE_ID)) then Trim(Param(params, PARAM_STORAGE_TYPE_ID))
    else DEFAULT_STORAGE_TYPE
  }

  // ---------------------------------------------------------------- lookups

  /** First entry with the given id. */
  function ByID(vs: seq<Volume>, id: string): Option<Volume> {
    if vs == [] then None else if vs[0].id == id then Some(vs[0]) else ByID(vs[1..], id)
  }

  /** First entry with the given name. */
  function ByName(vs: seq<Volume>, name: string): Option<Volume> {
    if vs == [] then None else if vs[0].name == name then Some(vs[0]) else ByName(vs[1..], name)
  }

  predicate Distinct(vs: seq<Volume>) {
    forall i, j :: 0 <= i < j < |vs| ==> vs[i].id != vs[j].id
  }

  function IDs(vs: seq<Volume>): set<string> {
    set i | 0 <= i < |vs| :: vs[i].id
  }

  lemma {:induction false} ByIDFound(vs: seq<Volume>, id: string)
    ensures ByID(vs, id).None? <==> id !in IDs(vs)
    ensures ByID(vs, id).Some? ==>
            exists k :: 0 <= k < |vs| && vs[k] == ByID(vs, id).value && vs[k].id == id
                        && forall j :: 0 <= j < k ==> vs[j].id != id
  {
    if vs != [] {
      ByIDFound(vs[1..], id);
      if vs[0].id == id {
        assert vs[0].id in IDs(vs);
      } else {
        forall x | x in IDs(vs) && x == id ensures id in IDs(vs[1..]) {
          var i :| 0 <= i < |vs| && vs[i].id == id;
          assert vs[1..][i - 1].id == id;
        }
        if id in IDs(vs[1..]) {
          var k :| 0 <= k < |vs| - 1 && vs[1..][k] == ByID(vs[1..], id).value && vs[1..][k].id == id
                   && forall j :: 0 <= j < k ==> vs[1..][j].id != id;
          assert vs[k + 1].id == id;
          assert forall j :: 0 <= j < k + 1 ==> vs[j].id != id by {
            forall j | 0 <= j < k + 1 ensures vs[j].id != id {
              if j > 0 { assert vs[1..][j - 1].id != id; }
            }
          }
        }
      }
    }
  }

  /** With distinct ids, looking an entry up by its id gives that entry. */
  lemma ByIDAt(vs: seq<Volume>, k: nat)
    requires k < |vs| && Distinct(vs)
    ensures ByID(vs, vs[k].id) == Some(vs[k])
  {
    ByIDFound(vs, vs[k].id);
    assert vs[k].id in IDs(vs);
  }

  lemma {:induction false} ByNameFound(vs: seq<Volume>, name: string)
    ensures ByName(vs, name).None? ==> forall k :: 0 <= k < |vs| ==> vs[k].name != name
    ensures ByName(vs, name).Some? ==>
            exists k :: 0 <= k < |vs| && vs[k] == ByName(vs, name).value && vs[k].name == name
                        && forall j :: 0 <= j < k ==> vs[j].name != name
  {
    if vs != [] && vs[0].name != name {
      ByNameFound(vs[1..], name);
      if ByName(vs, name).Some? {
        var k :| 0 <= k < |vs| - 1 && vs[1..][k] == ByName(vs, name).value && vs[1..][k].name == name
                 && forall j :: 0 <= j < k ==> vs[1..][j].name != name;
        assert forall j :: 0 <= j < k + 1 ==> vs[j].name != name by {
          forall j | 0 <= j < k + 1 ensures vs[j].name != name {
            if j > 0 { assert vs[1..][j - 1].name != name; }
          }
        }
        assert vs[k + 1].name == name;
      } else {
        forall k | 0 <= k < |vs| ensures vs[k].name != name {
          if k > 0 { assert vs[1..][k - 1].name != name; }
        }
      }
    }
  }

  // ------------------------------------------------------------------ edits

  /** Does the resize loop touch this entry? */
  predicate Touches(v: Volume, id: string, req: ResizeRequest) {
    v.id == id || (id == "" && v.name == req.name)
  }

  /** The entry as the resize loop rewrites it. */
  function Grown(v: Volume, req: ResizeRequest): Volume {
    v.(name := FirstNonEmpty(req.name, v.name),
    sizeGiB := req.sizeGiB,
    storageType := FirstNonEmpty(v.storageType, StorageClassStorageType(req.params)),
    datastore := FirstNonEmpty(v.datastore, Param(req.params, PARAM_DATASTORE_ID)))
  }

  /** The entry appended for a volume that does not exist yet; its id is assigned by the backend. */
  function Requested(req: ResizeRequest): Volume {
    Volume("", req.name, req.sizeGiB, false, StorageClassStorageType(req.params),
           Param(req.params, PARAM_DATASTORE_ID), "", "")
  }

  function Rewritten(v: Volume, id: string, req: ResizeRequest): Volume {
    if Touches(v, id, req) then Grown(v, req) else v
  }

  function GrowAll(vs: seq<Volume>, id: string, req: ResizeRequest): (r: seq<Volume>)
    ensures |r| == |vs|
    ensures forall k :: 0 <= k < |vs| ==> r[k] == Rewritten(vs[k], id, req)
  {
    seq(|vs|, k requires 0 <= k < |vs| => Rewritten(vs[k], id, req))
  }

  predicate AnyTouched(vs: seq<Volume>, id: string, req: ResizeRequest) {
    exists k :: 0 <= k < |vs| && Touches(vs[k], id, req)
  }

  /** The array written for a create or a grow. */
  function Resized(vs: seq<Volume>, id: string, req: ResizeRequest): seq<Volume> {
    if AnyTouched(vs, id, req) then GrowAll(vs, id, req) else GrowAll(vs, id, req) + [Requested(req)]
  }

  /** The array written for a delete. */
  function Without(vs: seq<Volume>, id: string): seq<Volume> {
    if vs == [] then []
    else if vs[0].id != id then [vs[0]] + Without(vs[1..], id)
    else Without(vs[1..], id)
  }

  lemma {:induction false} WithoutAbsent(vs: seq<Volume>, id: string)
    requires forall k :: 0 <= k < |vs| ==> vs[k].id != id
    ensures Without(vs, id) == vs
  {
    if vs != [] {
      WithoutAbsent(vs[1..], id);
    }
  }

  /** Removing an id that occurs once cuts out exactly its entry. */
  lemma {:induction false} WithoutAt(vs: seq<Volume>, k: nat)
    requires k < |vs| && Distinct(vs)
    ensures Without(vs, vs[k].id) == vs[..k] + vs[k + 1..]
  {
    if k == 0 {
      WithoutAbsent(vs[1..], vs[0].id);
    } else {
      WithoutAt(vs[1..], k - 1);
      assert vs[1..][k - 1] == vs[k];
      assert [vs[0]] + (vs[1..][..k - 1] + vs[1..][k..]) == vs[..k] + vs[k + 1..];
    }
  }

  // ------------------------------------------- lookup after a write completed

  /** The entry may be the disk a create asked for. */
  predicate IsNewCandidate(v: Volume, known: set<string>, req: ResizeRequest) {
    var storageType := StorageClassStorageType(req.params);
    var datastore := Trim(Param(req.params, PARAM_DATASTORE_ID));
    && v.id != "" && !v.root
    && v.id !in known
    && !(v.sizeGiB > 0 && v.sizeGiB < req.sizeGiB)
    && !(storageType != "" && v.storageType != "" && v.storageType != storageType)
    && !(datastore != "" && v.datastore != "" && v.datastore != datastore)
  }

  function FirstNew(after: seq<Volume>, known: set<string>, req: ResizeRequest): Option<Volume> {
    if after == [] then None
    else if IsNewCandidate(after[0], known, req) then Some(after[0])
    else FirstNew(after[1..], known, req)
  }

  lemma {:induction false} FirstNewFound(after: seq<Volume>, known: set<string>, req: ResizeRequest)
    ensures FirstNew(after, known, req).Some? ==>
            exists k :: 0 <= k < |after| && after[k] == FirstNew(after, known, req).value
                        && IsNewCandidate(after[k], known, req)
                        && forall j :: 0 <= j < k ==> !IsNewCandidate(after[j], known, req)
    ensures FirstNew(after, known, req).None? ==> forall k :: 0 <= k < |after| ==> !IsNewCandidate(after[k], known, req)
  {
    if after != [] && !IsNewCandidate(after[0], known, req) {
      FirstNewFound(after[1..], known, req);
      if FirstNew(after, known, req).Some? {
        var k :| 0 <= k < |after| - 1 && after[1..][k] == FirstNew(after, known, req).value
                 && IsNewCandidate(after[1..][k], known, req)
                 && forall j :: 0 <= j < k ==> !IsNewCandidate(after[1..][j], known, req);
        assert forall j :: 0 <= j < k + 1 ==> !IsNewCandidate(after[j], known, req) by {
          forall j | 0 <= j < k + 1 ensures !IsNewCandidate(after[j], known, req) {
            if j > 0 { assert !IsNewCandidate(after[1..][j - 1], known, req); }
          }
        }
        assert after[k + 1] == FirstNew(after, known, req).value;
      } else {
        forall k | 0 <= k < |after| ensures !IsNewCandidate(after[k], known, req) {
          if k > 0 { assert !IsNewCandidate(after[1..][k - 1], known, req); }
        }
      }
    }
  }

  function NonEmptyIDs(vs: seq<Volume>): set<string> {
    IDs(vs) - {""}
  }

  /** By id when one was given, else by name, else whatever is new. */
  function FindResized(before: seq<Volume>, after: seq<Volume>, id: string, req: ResizeRequest): Option<Volume> {
    if id != "" then ByID(after, id)
    else if ByName(after, req.name).Some? then ByName(after, req.name)
    else FirstNew(after, NonEmptyIDs(before), req)
  }

  // ------------------------------------------------------- the loops themselves

  method FindVolumeByID(vs: seq<Volume>, id: string) returns (r: Option<Volume>)
    ensures r == ByID(vs, id)
  {
    for i := 0 to |vs|
      invariant ByID(vs, id) == ByID(vs[i..], id)
    {
      if vs[i].id == id {
        return Some(vs[i]);
      }
      assert vs[i..][1..] == vs[i + 1..];
    }
    return None;
  }

  method FindVolumeByName(vs: seq<Volume>, name: string) returns (r: Option<Volume>)
    ensures r == ByName(vs, name)
  {
    for i := 0 to |vs|
      invariant ByName(vs, name) == ByName(vs[i..], name)
    {
      if vs[i].name == name {
        return Some(vs[i]);
      }
      assert vs[i..][1..] == vs[i + 1..];
    }
    return None;
  }

  method FindNewVolume(before: seq<Volume>, after: seq<Volume>, req: ResizeRequest) returns (r: Option<Volume>)
    ensures r == FirstNew(after, NonEmptyIDs(before), req)
  {
    var known: set<string> := {};
    for i := 0 to |before|
      invariant known == NonEmptyIDs(before[..i])
    {
      assert IDs(before[..i + 1]) == IDs(before[..i]) + {before[i].id};
      if before[i].id != "" {
        known := known + {before[i].id};
      }
    }
    assert before[..|before|] == before;
    for i := 0 to |after|
      invariant FirstNew(after, known, req) == FirstNew(after[i..], known, req)
    {
      if IsNewCandidate(after[i], known, req) {
        return Some(after[i]);
      }
      assert after[i..][1..] == after[i + 1..];
    }
    return None;
  }

  method FindResizedVolume(before: seq<Volume>, after: seq<Volume>, id: string, req: ResizeRequest)
    returns (r: Option<Volume>)
    ensures r == FindResized(before, after, id, req)
  {
    if id != "" {
      r := FindVolumeByID(after, id);
      return;
    }
    r := FindVolumeByName(after, req.name);
    if r.None? {
      r := FindNewVolume(before, after, req);
    }
  }

  /** The loop that builds the array for a create or a grow. */
  method BuildResized(vs: seq<Volume>, id: string, req: ResizeRequest) returns (next: seq<Volume>)
    ensures next == Resized(vs, id, req)
  {
    next := [];
    var found := false;
    for i := 0 to |vs|
      invariant |next| == i && forall k :: 0 <= k < i ==> next[k] == Rewritten(vs[k], id, req)
      invariant found ==> AnyTouched(vs, id, req)
      invariant !found ==> forall k :: 0 <= k < i ==> !Touches(vs[k], id, req)
    {
      var volume := vs[i];
      if Touches(volume, id, req) {
        assert AnyTouched(vs, id, req);
        volume := Grown(volume, req);
        found := true;
      }
      assert volume == Rewritten(vs[i], id, req);
      next := next + [volume];
    }
    assert next == GrowAll(vs, id, req);
    if !found {
      next := next + [Requested(req)];
    }
  }

  /** The loop that builds the array for a delete. */
  method BuildWithout(vs: seq<Volume>, id: string) returns (next: seq<Volume>)
    ensures next == Without(vs, id)
  {
    next := [];
    for i := 0 to |vs|
      invariant next + Without(vs[i..], id) == Without(vs, id)
    {
      assert vs[i..][1..] == vs[i + 1..];
      if vs[i].id != id {
        next := next + [vs[i]];
      }
    }
  }
}
