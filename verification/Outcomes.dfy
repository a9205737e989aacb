/**
 What Ensure, Expand and Delete ask the backend for and answer, said by the
 entries of the array and the replies, without the plans the operations make.
 */
module Outcomes {
  import opened Text
  import opened Volumes
  import opened ResizeOps
  import opened History

  // --------------------------------------------------- storage class parameters

  /** The trimmed value of the first key that has a value which is not blank. */
  predicate FirstGiven(params: Parameters, keys: seq<string>, chosen: string) {
    exists k :: 0 <= k < |keys| && keys[k] in params && !Blank(params[keys[k]]) && chosen == Trim(params[keys[k]])
                && forall j :: 0 <= j < k ==> keys[j] in params ==> Blank(params[keys[j]])
  }

  predicate NoneGiven(params: Parameters, keys: seq<string>) {
    forall k :: 0 <= k < |keys| ==> keys[k] in params ==> Blank(params[keys[k]])
  }

  /** The storage type a storage class asks for. */
  predicate TypeChosen(params: Parameters, storageType: string) {
    var keys := ["morpheus.storageType", "morpheus.storageTypeId"];
    if NoneGiven(params, keys) then storageType == "38" else FirstGiven(params, keys, storageType)
  }

  lemma StorageTypeChosen(params: Parameters)
    ensures TypeChosen(params, StorageClassStorageType(params))
  {
    var keys := ["morpheus.storageType", "morpheus.storageTypeId"];
    assert keys[0] == PARAM_STORAGE_TYPE && keys[1] == PARAM_STORAGE_TYPE_ID;
    var k := if Blank(Param(params, keys[0])) then 1 else 0;
    if !Blank(Param(params, keys[k])) {
      assert keys[k] in params && FirstGiven(params, keys, StorageClassStorageType(params));
    }
  }

  /** Ensure and Expand go to the server of the first of three keys, whose value is trimmed; no key, no server. */
  lemma ServerChosen(req: ResizeRequest)
    ensures ExpandOp(req).server == EnsureOp(req).server
    ensures var keys := ["morpheus.serverId", "morpheus.hostId", "morpheus.instanceId"];
            if NoneGiven(req.params, keys) then EnsureOp(req).server == ""
            else FirstGiven(req.params, keys, EnsureOp(req).server)
  {
    var keys := ["morpheus.serverId", "morpheus.hostId", "morpheus.instanceId"];
    assert keys[0] == PARAM_SERVER_ID && keys[1] == PARAM_HOST_ID && keys[2] == PARAM_INSTANCE_ID;
    var k := if !Blank(Param(req.params, keys[0])) then 0 else if !Blank(Param(req.params, keys[1])) then 1 else 2;
    if !Blank(Param(req.params, keys[k])) {
      assert keys[k] in req.params && FirstGiven(req.params, keys, EnsureOp(req).server);
    }
  }

  // ------------------------------------------------------------- what is written

  /** Entry k is the one the operation is about: the first of the name, or the one with the id. */
  predicate Names(op: Op, before: seq<Volume>, k: nat) {
    && k < |before|
    && match op
       case Ensure(_, req) => before[k].name == req.name && forall j :: 0 <= j < k ==> before[j].name != req.name
       case Expand(_, req) => before[k].id == req.volumeId
       case Delete(_, volumeId) => before[k].id == volumeId
  }

  ghost predicate NamesNone(op: Op, before: seq<Volume>) {
    forall k: nat :: !Names(op, before, k)
  }

  lemma NamedByID(before: seq<Volume>, k: nat, id: string)
    requires k < |before| && Distinct(before) && before[k].id == id
    ensures ByID(before, id) == Some(before[k])
  {
    ByIDAt(before, k);
  }

  lemma NamedByName(before: seq<Volume>, k: nat, name: string)
    requires k < |before| && before[k].name == name && forall j :: 0 <= j < k ==> before[j].name != name
    ensures ByName(before, name) == Some(before[k])
  {
    ByNameFound(before, name);
  }

  /** The named entry is the only one, and what the lookups find. */
  lemma OnlyNamed(op: Op, before: seq<Volume>, k: nat)
    requires Distinct(before) && Names(op, before, k)
    ensures forall j: nat :: Names(op, before, j) ==> j == k
    ensures k < |before|
    ensures if op.Ensure? then ByName(before, op.req.name) == Some(before[k])
            else ByID(before, if op.Expand? then op.req.volumeId else op.volumeId) == Some(before[k])
  {
    if op.Ensure? {
      NamedByName(before, k, op.req.name);
    } else {
      NamedByID(before, k, before[k].id);
    }
  }

  lemma NoID(op: Op, before: seq<Volume>)
    requires !op.Ensure? && NamesNone(op, before)
    ensures ByID(before, if op.Expand? then op.req.volumeId else op.volumeId).None?
  {
    var id := if op.Expand? then op.req.volumeId else op.volumeId;
    ByIDFound(before, id);
    if ByID(before, id).Some? {
      var k: nat :| k < |before| && before[k].id == id;
      assert Names(op, before, k);
    }
  }

  lemma {:induction false} NoName(op: Op, before: seq<Volume>)
    requires op.Ensure? && NamesNone(op, before)
    ensures ByName(before, op.req.name).None? && forall k :: 0 <= k < |before| ==> before[k].name != op.req.name
  {
    ByNameFound(before, op.req.name);
    if ByName(before, op.req.name).Some? {
      var k: nat :| k < |before| && before[k].name == op.req.name && forall j ::
        0 <= j < k ==> before[j].name != op.req.name;
      assert Names(op, before, k);
    }
  }

  /**
   A create writes the array it read and one more entry: without an id, of the
   requested name and size, of the type and datastore the storage class asks for.
   */
  lemma CreateAsks(op: Op, before: seq<Volume>, used: set<string>) returns (asked: Volume)
    requires op.Ensure? && SoundArray(before, used) && NamesNone(op, before)
    ensures PlanFor(op, before) == Write(before + [asked], "")
    ensures asked.id == "" && asked.name == op.req.name && asked.sizeGiB == op.req.sizeGiB && !asked.root
    ensures TypeChosen(op.req.params, asked.storageType)
    ensures asked.datastore ==
            if "morpheus.datastoreId" in op.req.params then op.req.params["morpheus.datastoreId"] else ""
    ensures asked.mountPoint == "" && asked.devicePath == ""
  {
    NoName(op, before);
    CreateNext(op.req, before, used);
    StorageTypeChosen(op.req.params);
    asked := Requested(op.req);
  }

  /**
   The entry a grow asks for: of the requested size, under the given name if
   there is one, with only a blank type or datastore filled from the storage class.
   */
  predicate GrownAsked(req: ResizeRequest, was: Volume, asked: Volume) {
    && asked.id == was.id && asked.root == was.root && asked.mountPoint == was.mountPoint
    && asked.sizeGiB == req.sizeGiB
    && asked.name == (if Blank(req.name) then was.name else req.name)
    && (if Blank(was.storageType) then TypeChosen(req.params, asked.storageType)
        else asked.storageType == was.storageType)
    && asked.datastore == (if !Blank(was.datastore) then was.datastore
                           else if NoneGiven(req.params, ["morpheus.datastoreId"]) then ""
                           else req.params["morpheus.datastoreId"])
  }

  lemma TypeNotBlank(params: Parameters)
    ensures !Blank(StorageClassStorageType(params))
  {
    assert Trimmed("38");
  }

  lemma GrownIsAsked(req: ResizeRequest, v: Volume)
    requires Trimmed(v.name)
    ensures GrownAsked(req, v, Grown(v, req))
  {
    StorageTypeChosen(req.params);
    assert !Blank(StorageClassStorageType(req.params)) by {
      TypeNotBlank(req.params);
    }
    assert ["morpheus.datastoreId"][0] == PARAM_DATASTORE_ID;
  }

  /** A grow writes the array it read with one entry changed. */
  lemma GrowAsks(op: Op, before: seq<Volume>, used: set<string>, k: nat) returns (next: seq<Volume>)
    requires !op.Delete? && SoundArray(before, used) && Names(op, before, k) && before[k].sizeGiB < op.req.sizeGiB
    requires op.Expand? ==> !before[k].root
    ensures PlanFor(op, before) == Write(next, before[k].id)
    ensures |next| == |before| && forall j :: 0 <= j < |before| && j != k ==> next[j] == before[j]
    ensures GrownAsked(op.req, before[k], next[k])
  {
    var id := before[k].id;
    OnlyNamed(op, before, k);
    assert Touches(before[k], id, op.req);
    assert forall j :: 0 <= j < |before| && j != k ==> !Touches(before[j], id, op.req);
    next := GrowAll(before, id, op.req);
    assert Resized(before, id, op.req) == next;
    GrownIsAsked(op.req, before[k]);
  }

  // ---------------------------------------------------------------- the lookup

  /**
   The lookup after a write: with the disk in the array, the first reply decides;
   without it, the first reply among six that shows no array, or else it gives up.
   */
  lemma {:induction false} LookupAnswers(polls: seq<PollReply>, attempt: nat, before: seq<Volume>, after: seq<Volume>,
                                         id: string, req: ResizeRequest, n: nat)
    requires attempt <= n <= 6 && forall i :: attempt <= i < n ==> PollAt(polls, i).PollSeen?
    requires n < 6 ==> !PollAt(polls, n).PollSeen?
    ensures var out, found := PollOutcome(polls, attempt, before, after, id, req),
            FindResized(before, after, id, req);
            out == if attempt < n && found.Some? then Succeeded(found)
                   else if n == 6 then Failed(LookupExhausted)
                   else if PollAt(polls, n).PollCancelled? then Failed(Cancelled) else Failed(PollFailed)
    decreases n - attempt
  {
    if attempt < n {
      LookupAnswers(polls, attempt + 1, before, after, id, req, n);
    }
  }

  /** The number of replies, of the first six, that come before one that shows no array. */
  lemma {:induction false} SeenReplies(polls: seq<PollReply>, from: nat) returns (n: nat)
    requires from <= 6
    ensures from <= n <= 6 && forall i :: from <= i < n ==> PollAt(polls, i).PollSeen?
    ensures n < 6 ==> !PollAt(polls, n).PollSeen?
    decreases 6 - from
  {
    n := from;
    if from < 6 && PollAt(polls, from).PollSeen? {
      n := SeenReplies(polls, from + 1);
    }
  }

  /** The first reply of the lookup shows the array; one that is not given does. */
  predicate Seen(polls: seq<PollReply>) {
    polls != [] ==> polls[0].PollSeen?
  }

  /** The errors a lookup can end with, and exactly when it succeeds. */
  lemma LookupSucceeds(polls: seq<PollReply>, before: seq<Volume>, after: seq<Volume>, id: string, req: ResizeRequest)
    ensures var out, found := PollOutcome(polls, 0, before, after, id, req), FindResized(before, after, id, req);
            && (out.Succeeded? <==> found.Some? && Seen(polls))
            && (out.Succeeded? ==> out.volume == found)
            && (out.Failed? ==> out.error in {LookupExhausted, Cancelled, PollFailed})
  {
    var n := SeenReplies(polls, 0);
    LookupAnswers(polls, 0, before, after, id, req, n);
  }

  // ------------------------------------------------------------------- expand

  /** The named entry with the requested size is what a successful write leaves at its place. */
  lemma ExpandWrites(op: Op, r: Replies, b: Backend, requested: set<string>, k: nat)
    requires op.Expand? && Sound(b) && Legal(op, r, b, requested) && Accepted(op) && r.getOk
    requires var before := ArrayOf(b, op.server);
             Names(op, before, k) && !before[k].root && before[k].sizeGiB < op.req.sizeGiB
    ensures var before, out := ArrayOf(b, op.server), Result(op, r, b);
            && (r.put.Refused? ==> Effect(op, r, b) == b)
            && (!r.put.Refused? ==>
                  && ArrayOf(Effect(op, r, b), op.server) == r.put.stored && GrewOne(op.req, before, r.put.stored, k)
                  && ByID(r.put.stored, op.req.volumeId) == Some(r.put.stored[k]))
            && (out.Succeeded? <==> r.put.Applied? && Seen(r.polls))
            && (out.Succeeded? ==> out == Succeeded(Some(r.put.stored[k])))
            && (!r.put.Applied? ==> out == Failed(PutFailed))
            && (out.Failed? ==> out.error in {PutFailed, LookupExhausted, Cancelled, PollFailed})
  {
    var before := ArrayOf(b, op.server);
    NamedByID(before, k, op.req.volumeId);
    if !r.put.Refused? {
      GrowWrite(op.req, before, r.put.stored, b.used, requested, k);
      NamedByID(r.put.stored, k, op.req.volumeId);
      LookupSucceeds(r.polls, before, r.put.stored, op.req.volumeId, op.req);
    }
  }

  /** A disk that is found, is no root volume and is smaller grows; nothing else does. */
  predicate Grows(req: ResizeRequest, before: seq<Volume>, k: nat)
    requires k < |before|
  {
    !before[k].root && before[k].sizeGiB < req.sizeGiB
  }

  /**
   The answers of an expand that is accepted and reads the array, by the entry
   with the id: there is none, it is a root volume, it is larger already, it has
   the size already; and nothing is written in any of these cases.
   */
  lemma ExpandAnswers(op: Op, r: Replies, b: Backend, requested: set<string>)
    requires op.Expand? && Sound(b) && Legal(op, r, b, requested) && Accepted(op) && r.getOk
    ensures var before, out, size := ArrayOf(b, op.server), Result(op, r, b), op.req.sizeGiB;
            && (out == Failed(VolumeNotFound) <==> NamesNone(op, before))
            && (out == Failed(RootRefused) <==> exists k: nat :: Names(op, before, k) && before[k].root)
            && (out == Failed(ShrinkRefused) <==>
                exists k: nat :: Names(op, before, k) && !before[k].root && before[k].sizeGiB > size)
            && (forall k: nat :: Names(op, before, k) && !before[k].root && before[k].sizeGiB == size ==>
                  out == Succeeded(Some(before[k])))
            && ((forall k: nat :: Names(op, before, k) ==> !Grows(op.req, before, k)) ==> Effect(op, r, b) == b)
  {
    var before := ArrayOf(b, op.server);
    if NamesNone(op, before) {
      NoID(op, before);
    } else {
      var k: nat :| Names(op, before, k);
      OnlyNamed(op, before, k);
      if Grows(op.req, before, k) {
        ExpandWrites(op, r, b, requested, k);
      }
    }
  }

  /** Whatever an expand returns has the id and exactly the size of the request, and is in the array afterwards. */
  lemma ExpandReturns(op: Op, r: Replies, b: Backend, requested: set<string>)
    requires op.Expand? && Sound(b) && Legal(op, r, b, requested) && Result(op, r, b).Succeeded?
    ensures var out := Result(op, r, b).volume;
            && out.Some? && out.value.id == op.req.volumeId && out.value.sizeGiB == op.req.sizeGiB
            && !out.value.root && out.value in ArrayOf(Effect(op, r, b), op.server)
  {
    var before := ArrayOf(b, op.server);
    ExpandAnswers(op, r, b, requested);
    var k: nat :| Names(op, before, k);
    OnlyNamed(op, before, k);
    if Grows(op.req, before, k) {
      ExpandWrites(op, r, b, requested, k);
    }
  }

  // ------------------------------------------------------------------- delete

  /**
   The answers of a delete that is accepted and reads the array: a volume that is
   not there is deleted already, a root volume is refused, any other goes exactly
   if the write is applied.
   */
  lemma DeleteAnswers(op: Op, r: Replies, b: Backend, requested: set<string>)
    requires op.Delete? && Sound(b) && Legal(op, r, b, requested) && Accepted(op) && r.getOk
    ensures var before, after, out := ArrayOf(b, op.server), ArrayOf(Effect(op, r, b), op.server), Result(op, r, b);
            && (NamesNone(op, before) ==> out == Succeeded(None) && Effect(op, r, b) == b)
            && (out == Failed(RootRefused) <==> exists k: nat :: Names(op, before, k) && before[k].root)
            && (out == Failed(RootRefused) ==> Effect(op, r, b) == b)
            && forall k: nat :: Names(op, before, k) && !before[k].root ==>
                 && (out == if r.put.Applied? then Succeeded(None) else Failed(PutFailed))
                 && (if r.put.Refused? then Effect(op, r, b) == b else RemovedOne(op.volumeId, before, after, k))
  {
    var before := ArrayOf(b, op.server);
    if NamesNone(op, before) {
      NoID(op, before);
    } else {
      var k: nat :| Names(op, before, k);
      OnlyNamed(op, before, k);
      if !before[k].root && !r.put.Refused? {
        RemoveWrite(op.volumeId, before, r.put.stored, b.used, requested, k);
      }
    }
  }

  // ------------------------------------------------------------------- ensure

  /** A disk of another name that still can be told to be the one a create asked for. */
  predicate Recognised(disk: Volume, req: ResizeRequest) {
    || disk.name == req.name
    || ((disk.storageType == "" || TypeChosen(req.params, disk.storageType))
        && (disk.datastore == "" || NoneGiven(req.params, ["morpheus.datastoreId"])
            || disk.datastore == Trim(req.params["morpheus.datastoreId"])))
  }

  lemma {:induction false} TypeIsChosen(params: Parameters, t: string)
    ensures TypeChosen(params, t) <==> t == StorageClassStorageType(params)
  {
    var keys := ["morpheus.storageType", "morpheus.storageTypeId"];
    StorageTypeChosen(params);
    if TypeChosen(params, t) && !NoneGiven(params, keys) {
      var i :| 0 <= i < 2 && keys[i] in params && !Blank(params[keys[i]]) && t == Trim(params[keys[i]])
               && forall j :: 0 <= j < i ==> keys[j] in params ==> Blank(params[keys[j]]);
      assert keys[0] == PARAM_STORAGE_TYPE && keys[1] == PARAM_STORAGE_TYPE_ID;
    }
  }

  /** The entry may be a disk that a create asked for under another name, whatever else the array holds. */
  predicate NewDisk(before: seq<Volume>, v: Volume, req: ResizeRequest) {
    && v.id != "" && !v.root && (forall k :: 0 <= k < |before| ==> before[k].id != v.id)
    && (v.sizeGiB <= 0 || req.sizeGiB <= v.sizeGiB)
    && (v.storageType == "" || TypeChosen(req.params, v.storageType))
    && (v.datastore == "" || NoneGiven(req.params, ["morpheus.datastoreId"])
        || v.datastore == Trim(req.params["morpheus.datastoreId"]))
  }

  lemma CandidateIsNewDisk(before: seq<Volume>, v: Volume, req: ResizeRequest)
    ensures IsNewCandidate(v, NonEmptyIDs(before), req) <==> NewDisk(before, v, req)
  {
    TypeIsChosen(req.params, v.storageType);
    TypeNotBlank(req.params);
    assert ["morpheus.datastoreId"][0] == PARAM_DATASTORE_ID;
    assert forall k :: 0 <= k < |before| ==> before[k].id in IDs(before);
  }

  /**
   What the lookup after a create finds, in whatever arrays: the first entry of
   the name, else the first entry that may be the new disk, else nothing.
   */
  lemma LookupFindsFirst(before: seq<Volume>, after: seq<Volume>, req: ResizeRequest)
    ensures var found := FindResized(before, after, "", req);
            var named := exists k :: 0 <= k < |after| && after[k].name == req.name;
            && (found.None? <==> !named && forall k :: 0 <= k < |after| ==> !NewDisk(before, after[k], req))
            && (found.Some? ==>
                exists k :: 0 <= k < |after| && found == Some(after[k])
                  && (if named then after[k].name == req.name else NewDisk(before, after[k], req))
                  && forall j :: 0 <= j < k ==>
                       if named then after[j].name != req.name else !NewDisk(before, after[j], req))
  {
    ByNameFound(after, req.name);
    FirstNewFound(after, NonEmptyIDs(before), req);
    forall k | 0 <= k < |after|
      ensures IsNewCandidate(after[k], NonEmptyIDs(before), req) <==> NewDisk(before, after[k], req) {
      CandidateIsNewDisk(before, after[k], req);
    }
  }

  lemma RecognisedIsFound(req: ResizeRequest, used: set<string>, before: seq<Volume>, after: seq<Volume>)
    requires SoundArray(before, used) && Added(req, used, before, after) && after[|before|].id != ""
    ensures FindResized(before, after, "", req).Some? <==> Recognised(after[|before|], req)
  {
    LookupFindsFirst(before, after, req);
    forall k | 0 <= k < |before| ensures after[k].name != req.name && !NewDisk(before, after[k], req) {
      assert SameEntry(before[k], after[k]);
    }
    assert NewDisk(before, after[|before|], req) || after[|before|].name == req.name <==>
           Recognised(after[|before|], req);
  }

  lemma EnsureAdds(op: Op, r: Replies, b: Backend, requested: set<string>)
    requires op.Ensure? && Sound(b) && Legal(op, r, b, requested) && Accepted(op) && r.getOk
    requires NamesNone(op, ArrayOf(b, op.server))
    ensures var before, out := ArrayOf(b, op.server), Result(op, r, b);
            var seen := r.put.Applied? && Seen(r.polls);
            && (r.put.Refused? ==> Effect(op, r, b) == b)
            && (!r.put.Refused? ==>
                  && ArrayOf(Effect(op, r, b), op.server) == r.put.stored
                  && Added(op.req, b.used, before, r.put.stored))
            && (out.Succeeded? <==> seen && Recognised(r.put.stored[|before|], op.req))
            && (out.Succeeded? ==> out == Succeeded(Some(r.put.stored[|before|])))
  {
    var before := ArrayOf(b, op.server);
    NoName(op, before);
    if !r.put.Refused? {
      CreateWrite(op.req, before, r.put.stored, b.used, requested);
      LookupSucceeds(r.polls, before, r.put.stored, "", op.req);
      RecognisedIsFound(op.req, b.used, before, r.put.stored);
      if FindResized(before, r.put.stored, "", op.req).Some? {
        CreateFindsNewDisk(op.req, before, r.put.stored, b.used);
      }
    }
  }

  lemma EnsureGrows(op: Op, r: Replies, b: Backend, requested: set<string>, k: nat)
    requires op.Ensure? && Sound(b) && Legal(op, r, b, requested) && Accepted(op) && r.getOk
    requires Names(op, ArrayOf(b, op.server), k) && ArrayOf(b, op.server)[k].sizeGiB < op.req.sizeGiB
    ensures var before, out := ArrayOf(b, op.server), Result(op, r, b);
            var seen := r.put.Applied? && Seen(r.polls);
            && (r.put.Refused? ==> Effect(op, r, b) == b)
            && (!r.put.Refused? ==>
                ArrayOf(Effect(op, r, b), op.server) == r.put.stored && GrewOne(op.req, before, r.put.stored, k))
            && (out.Succeeded? <==> seen) && (seen ==> out == Succeeded(Some(r.put.stored[k])))
  {
    var before := ArrayOf(b, op.server);
    NamedByName(before, k, op.req.name);
    if !r.put.Refused? {
      GrowWrite(op.req, before, r.put.stored, b.used, requested, k);
      NamedByID(r.put.stored, k, before[k].id);
      LookupSucceeds(r.polls, before, r.put.stored, before[k].id, op.req);
    }
  }

  /**
   The answers of an Ensure that is accepted and reads the array. A volume of the
   name that is large enough is returned as it is and nothing is written. A
   smaller one grows, and success follows exactly if the write is applied and
   then seen. Where the name is absent a disk is added, and success needs, besides
   that, that the backend made it recognisable.
   */
  lemma EnsureAnswers(op: Op, r: Replies, b: Backend, requested: set<string>)
    requires op.Ensure? && Sound(b) && Legal(op, r, b, requested) && Accepted(op) && r.getOk
    ensures var before, out, size := ArrayOf(b, op.server), Result(op, r, b), op.req.sizeGiB;
            var seen := r.put.Applied? && Seen(r.polls);
            && (forall k: nat :: Names(op, before, k) && before[k].sizeGiB >= size ==>
                  out == Succeeded(Some(before[k])) && Effect(op, r, b) == b)
            && (forall k: nat :: Names(op, before, k) && before[k].sizeGiB < size ==>
                  && (r.put.Refused? ==> Effect(op, r, b) == b)
                  && (!r.put.Refused? ==>
                      ArrayOf(Effect(op, r, b), op.server) == r.put.stored && GrewOne(op.req, before, r.put.stored, k))
                  && (out.Succeeded? <==> seen) && (seen ==> out == Succeeded(Some(r.put.stored[k]))))
            && (NamesNone(op, before) ==>
                  && (r.put.Refused? ==> Effect(op, r, b) == b)
                  && (!r.put.Refused? ==>
                        && ArrayOf(Effect(op, r, b), op.server) == r.put.stored
                        && Added(op.req, b.used, before, r.put.stored))
                  && (out.Succeeded? <==> seen && Recognised(r.put.stored[|before|], op.req))
                  && (out.Succeeded? ==> out == Succeeded(Some(r.put.stored[|before|]))))
  {
    var before := ArrayOf(b, op.server);
    if NamesNone(op, before) {
      EnsureAdds(op, r, b, requested);
    } else {
      var k: nat :| Names(op, before, k);
      OnlyNamed(op, before, k);
      if before[k].sizeGiB < op.req.sizeGiB {
        EnsureGrows(op, r, b, requested, k);
      }
    }
  }
}
