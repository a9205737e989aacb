/**
 The controller's CreateVolume: what it asks the client for, the handle and
 capacity it answers, and how create, delete and the node fit together.
 */
module ControllerCreate {
  import opened Text
  import opened Numerals
  import opened Float64
  import opened Wire
  import opened Sizes
  import opened Volumes
  import opened VolumeHandle
  import opened Candidates
  import opened ResizeOps
  import opened History
  import opened ResizeClient
  import opened ControllerDelete
  import opened Outcomes

  // ------------------------------------------------------------- capabilities

  /** The access modes of the interface; a number that names none of them is another mode. */
  datatype AccessMode =
    | Unknown | SingleNodeWriter | SingleNodeReaderOnly | MultiNodeReaderOnly | MultiNodeSingleWriter
    | MultiNodeMultiWriter | SingleNodeSingleWriter | SingleNodeMultiWriter | OtherMode

  datatype AccessType = Block | Mount | NoType

  datatype Capability = Missing | Capability(accessType: AccessType, mode: AccessMode)

  datatype CapabilityError = NoCapabilities | MissingCapability | RawBlock | NotMount | ModeUnsupported

  /** What is wrong with a capability. */
  function Fault(c: Capability): Option<CapabilityError> {
    if c.Missing? then Some(MissingCapability)
    else if c.accessType.Block? then Some(RawBlock)
    else if !c.accessType.Mount? then Some(NotMount)
    else if c.mode !in {SingleNodeWriter, SingleNodeSingleWriter, Unknown} then Some(ModeUnsupported)
    else None
  }

  /** The capabilities are a filesystem mount on one node that writes, and there is one at least. */
  predicate Capable(cs: seq<Capability>) {
    cs != [] && forall i :: 0 <= i < |cs| ==>
                  cs[i].Capability? && cs[i].accessType.Mount?
                    && cs[i].mode in {SingleNodeWriter, SingleNodeSingleWriter, Unknown}
  }

  /** The fault of a capability, by what it asks for. */
  lemma FaultExactly(c: Capability)
    ensures Fault(c) == Some(MissingCapability) <==> c == Missing
    ensures Fault(c) == Some(RawBlock) <==> exists mode :: c == Capability(AccessType.Block, mode)
    ensures Fault(c) == Some(NotMount) <==> exists mode :: c == Capability(NoType, mode)
    ensures Fault(c) == None <==>
            exists mode :: c == Capability(Mount, mode)
                           && (mode.SingleNodeWriter? || mode.SingleNodeSingleWriter? || mode.Unknown?)
  {
    if c.Capability? {
      assert c == Capability(c.accessType, c.mode);
    }
  }

  /** The capabilities are usable exactly if there is one and none has a fault. */
  lemma CapableExactly(cs: seq<Capability>)
    ensures Capable(cs) <==> cs != [] && forall c :: c in cs ==> Fault(c).None?
  {
    if forall c :: c in cs ==> Fault(c).None? {
      assert forall i :: 0 <= i < |cs| ==> cs[i] in cs;
    }
  }

  /** Accepts exactly such capabilities; else it reports the fault of the first one that has a fault. */
  method ValidateVolumeCapabilities(cs: seq<Capability>) returns (err: Option<CapabilityError>)
    ensures err.None? <==> Capable(cs)
    ensures err == Some(NoCapabilities) <==> cs == []
    ensures err.Some? && cs != [] ==>
              exists i :: 0 <= i < |cs| && Fault(cs[i]) == err && forall j :: 0 <= j < i ==> Fault(cs[j]).None?
  {
    if |cs| == 0 {
      return Some(NoCapabilities);
    }
    for i := 0 to |cs|
      invariant forall j :: 0 <= j < i ==> Fault(cs[j]).None?
    {
      var c := cs[i];
      if c.Missing? {
        return Some(MissingCapability);
      }
      if c.accessType.Block? {
        return Some(RawBlock);
      }
      if !c.accessType.Mount? {
        return Some(NotMount);
      }
      match c.mode
      case SingleNodeWriter | SingleNodeSingleWriter | Unknown =>
      case _ => return Some(ModeUnsupported);
    }
    return None;
  }

  // ------------------------------------------------------------------ request

  datatype CreateRequest = CreateRequest(name: string, capabilities: seq<Capability>, params: Parameters,
    capacity: Option<CapacityRange>)

  const CONTEXT_SERVER_ID := "morpheus.serverId"
  const CONTEXT_VOLUME_ID := "morpheus.volumeId"
  const CONTEXT_VOLUME_NAME := "morpheus.volumeName"
  const CONTEXT_DEVICE_PATH := "morpheus.devicePath"
  const CONTEXT_SIZE_GIB := "morpheus.sizeGiB"
  const FS_TYPE := "csi.storage.k8s.io/fstype"

  datatype CreateResponse =
    | InvalidArgument
    | Internal(error: Error)
    | Created(handle: string, capacityBytes: int, context: map<string, string>)

  /** The request to the client, when the arguments are valid. */
  function EnsureRequest(req: CreateRequest): Option<ResizeRequest> {
    var size := RequestedSizeGiB(req.capacity);
    if Blank(req.name) || !Capable(req.capabilities) || StorageClassServerID(req.params) == ""
      || size.Rejected? then None
    else Some(ResizeRequest(Trim(req.name), size.size, req.params, ""))
  }

  function Context(req: ResizeRequest, v: Volume): map<string, string> {
    var context := map[
                     CONTEXT_SERVER_ID := StorageClassServerID(req.params),
                     CONTEXT_VOLUME_ID := v.id,
                     CONTEXT_VOLUME_NAME := v.name,
                     CONTEXT_SIZE_GIB := FormatInt(req.sizeGiB)];
    var withDevice := if v.devicePath != "" then context[CONTEXT_DEVICE_PATH := v.devicePath] else context;
    if Param(req.params, FS_TYPE) != "" then withDevice[FS_TYPE := req.params[FS_TYPE]] else withDevice
  }

  /** The answer to a valid request, from what the client returned. */
  function CreateAnswer(req: ResizeRequest, outcome: Outcome): CreateResponse {
    match outcome
    case Failed(error) => Internal(error)
    case Succeeded(None) => Internal(LookupExhausted)
    case Succeeded(Some(v)) =>
      Created(Encode(StorageClassServerID(req.params), v.id), CapacityBytes(req.sizeGiB), Context(req, v))
  }

  method CreateVolume(client: Client, req: CreateRequest, turns: seq<Moment>, r: Replies, ghost requested: set<string>)
    returns (out: CreateResponse)
    requires client.Valid()
    requires EnsureRequest(req).Some? ==>
               var op := EnsureOp(EnsureRequest(req).value);
               LetsIn(op, client.Now(), turns) && Legal(op, r, Served(op, client.Now(), turns).backend, requested)
    requires r.polls != [] ==> !r.polls[0].PollCancelled?
    modifies client
    ensures client.Valid()
    ensures EnsureRequest(req).None? ==> out == InvalidArgument && client.Now() == old(client.Now())
    ensures EnsureRequest(req).Some? ==>
              var op := EnsureOp(EnsureRequest(req).value);
              var at := old(Served(op, client.Now(), turns));
              client.Now() == Left(op, r, at) && out == CreateAnswer(op.req, Result(op, r, at.backend))
  {
    var name := Trim(req.name);
    if name == "" {
      return InvalidArgument;
    }
    var fault := ValidateVolumeCapabilities(req.capabilities);
    if fault.Some? || StorageClassServerID(req.params) == "" {
      return InvalidArgument;
    }
    var size := RequestedSizeGiB(req.capacity);
    if size.Rejected? {
      return InvalidArgument;
    }
    var request := ResizeRequest(name, size.size, req.params, "");
    var outcome := client.EnsureVolume(request, turns, r, requested);
    if outcome.Failed? {
      return Internal(outcome.error);
    }
    if outcome.volume.None? {
      return Internal(LookupExhausted);
    }
    var volume := outcome.volume.value;
    var serverID := StorageClassServerID(req.params);
    var context := map[
      CONTEXT_SERVER_ID := serverID,
      CONTEXT_VOLUME_ID := volume.id,
      CONTEXT_VOLUME_NAME := volume.name,
      CONTEXT_SIZE_GIB := FormatInt(size.size)];
    if volume.devicePath != "" {
      context := context[CONTEXT_DEVICE_PATH := volume.devicePath];
    }
    if Param(req.params, FS_TYPE) != "" {
      context := context[FS_TYPE := req.params[FS_TYPE]];
    }
    return Created(Encode(serverID, volume.id), CapacityBytes(size.size), context);
  }

  /** A request is sent on exactly if it has a name, usable capabilities, a server and an acceptable size. */
  lemma RequestSent(req: CreateRequest)
    ensures EnsureRequest(req).Some? <==>
            && Trim(req.name) != "" && Capable(req.capabilities)
            && !NoneGiven(req.params, ["morpheus.serverId", "morpheus.hostId", "morpheus.instanceId"])
            && req.capacity.Some? && Accepts(req.capacity.value.requiredBytes, req.capacity.value.limitBytes)
    ensures EnsureRequest(req).Some? ==>
              var sent := EnsureRequest(req).value;
              && sent.name == Trim(req.name) && sent.params == req.params && sent.volumeId == ""
              && Gibibytes(sent.sizeGiB) == RequestedSizeGiB(req.capacity)
              && (req.capacity.value.requiredBytes < TWO_63 ==> Accepted(EnsureOp(sent)))
  {
    var keys := ["morpheus.serverId", "morpheus.hostId", "morpheus.instanceId"];
    assert keys[0] == PARAM_SERVER_ID && keys[1] == PARAM_HOST_ID && keys[2] == PARAM_INSTANCE_ID;
    RejectedExactly(req.capacity);
    ServerChosen(ResizeRequest("", 1, req.params, ""));
    if NoneGiven(req.params, keys) {
      assert StorageClassServerID(req.params) == "";
    }
    if EnsureRequest(req).Some? && req.capacity.value.requiredBytes < TWO_63 {
      AcceptedIsPositive(req.capacity.value.requiredBytes, req.capacity.value.limitBytes);
    }
  }

  /**
   The answered handle names the server of the storage class and the id of the
   volume exactly if both can be part of a handle.
   */
  lemma AnsweredHandle(req: ResizeRequest, v: Volume)
    ensures var answer := CreateAnswer(req, Succeeded(Some(v)));
            && answer.Created?
            && (Decode(answer.handle) == Some(VolumeRef(StorageClassServerID(req.params), Trim(v.id)))
                <==> HandlePart(StorageClassServerID(req.params)) && HandlePart(v.id))
  {
    DecodeEncode(StorageClassServerID(req.params), v.id);
  }

  /** A create without a volume is answered with the error, and only that. */
  lemma AnsweredFailure(req: ResizeRequest, outcome: Outcome)
    ensures CreateAnswer(req, outcome).Created? <==> outcome.Succeeded? && outcome.volume.Some?
    ensures outcome.Failed? ==> CreateAnswer(req, outcome) == Internal(outcome.error)
    ensures CreateAnswer(req, outcome) != InvalidArgument
  {
  }

  /**
   The answered capacity of a request that was sent is less than one GiB above
   what was required, and short of it by at most 512 bytes.
   */
  lemma AnsweredCapacity(req: CreateRequest, v: Volume)
    requires EnsureRequest(req).Some? && req.capacity.value.requiredBytes <= TWO_63 - GIB
    ensures var answer := CreateAnswer(EnsureRequest(req).value, Succeeded(Some(v)));
            answer.Created? && req.capacity.value.requiredBytes - 512 <= answer.capacityBytes
              < req.capacity.value.requiredBytes + GIB
  {
    RequestSent(req);
    CapacityClose(req.capacity.value.requiredBytes, req.capacity.value.limitBytes);
  }

  /**
   The volume context says which volume it is, and of which size it was
   requested; nothing else but a path and a type.
   */
  lemma AnsweredContext(req: ResizeRequest, v: Volume)
    ensures var context := Context(req, v);
            && {"morpheus.serverId", "morpheus.volumeId", "morpheus.volumeName", "morpheus.sizeGiB"} <= context.Keys
            && context["morpheus.serverId"] == StorageClassServerID(req.params)
            && context["morpheus.volumeId"] == v.id && context["morpheus.volumeName"] == v.name
            && (IsInt64(req.sizeGiB) ==> ParseInt(context["morpheus.sizeGiB"]) == Some(req.sizeGiB))
            && ("morpheus.devicePath" in context <==> v.devicePath != "")
            && (v.devicePath != "" ==> context["morpheus.devicePath"] == v.devicePath)
            && ("csi.storage.k8s.io/fstype" in context <==>
                "csi.storage.k8s.io/fstype" in req.params && req.params["csi.storage.k8s.io/fstype"] != "")
            && ("csi.storage.k8s.io/fstype" in context ==>
                context["csi.storage.k8s.io/fstype"] == req.params["csi.storage.k8s.io/fstype"])
            && context.Keys <= {"morpheus.serverId", "morpheus.volumeId", "morpheus.volumeName", "morpheus.sizeGiB",
                                "morpheus.devicePath", "csi.storage.k8s.io/fstype"}
  {
    if IsInt64(req.sizeGiB) {
      ParseFormat(req.sizeGiB);
    }
  }

  /** Retries of one create answer one handle exactly if the client returned one disk. */
  lemma RetriedHandle(req: ResizeRequest, v: Volume, w: Volume)
    requires HandlePart(StorageClassServerID(req.params))
    requires HandlePart(v.id) && Trimmed(v.id) && HandlePart(w.id) && Trimmed(w.id)
    ensures CreateAnswer(req, Succeeded(Some(v))).handle == CreateAnswer(req, Succeeded(Some(w))).handle <==>
            v.id == w.id
  {
    EncodeInjective(StorageClassServerID(req.params), v.id, StorageClassServerID(req.params), w.id);
  }

  // --------------------------------------------------------- create, delete

  /** A create on an array without the name appends exactly the disk it returns. */
  lemma CreateAppends(op: Op, r: Replies, b: Backend, requested: set<string>, v: Volume)
    requires op.Ensure? && Sound(b) && Legal(op, r, b, requested)
    requires ByName(ArrayOf(b, op.server), op.req.name).None? && Result(op, r, b) == Succeeded(Some(v))
    ensures var before, after := ArrayOf(b, op.server), ArrayOf(Effect(op, r, b), op.server);
            && Added(op.req, b.used, before, after) && v == after[|before|]
            && op.server in b.arrays && WritesArray(op, r, b)
  {
    var before := ArrayOf(b, op.server);
    assert PlanFor(op, before) == Write(Resized(before, "", op.req), "");
    PollFinds(r.polls, 0, before, r.put.stored, "", op.req);
    CreateWrite(op.req, before, r.put.stored, b.used, requested);
    CreateFindsNewDisk(op.req, before, r.put.stored, b.used);
  }

  /**
   A fresh disk is on no other server, so every search finds it where it was
   created, or fails and falls back to there.
   */
  lemma FreshDiskTarget(b: Backend, b': Backend, server: string, id: string, down: set<string>,
                        resolved: Option<seq<string>>)
    requires Sound(b) && id !in b.used && !Blank(id) && Trimmed(id)
    requires forall s :: s in b'.arrays && s != server ==> s in b.arrays && b'.arrays[s] == b.arrays[s]
    ensures DeleteTarget(b', down, resolved, VolumeRef(server, id)) == VolumeRef(server, id)
  {
    var candidates := CandidateServerIDs(resolved, [server]);
    var found := Find(Answering(b'.arrays, down), id, candidates);
    SearchExactly(Answering(b'.arrays, down), id, Unique(candidates));
    forall s | s in b.arrays ensures ByID(b.arrays[s], id).None? {
      ByIDFound(b.arrays[s], id);
    }
  }

  /** The same entries in the same order, in everything that is written. */
  predicate SameArray(a: seq<Volume>, b: seq<Volume>) {
    |a| == |b| && forall k :: 0 <= k < |a| ==> SameEntry(a[k], b[k])
  }

  /** Adding an entry and removing it again gives the array back. */
  lemma AddedThenRemoved(req: ResizeRequest, used: set<string>, a0: seq<Volume>, a1: seq<Volume>, a2: seq<Volume>,
                         k: nat)
    requires Added(req, used, a0, a1) && Distinct(a1) && RemovedOne(a1[|a0|].id, a1, a2, k)
    ensures SameArray(a0, a2)
  {
  }

  /** What a delete after the create does to the array of the created disk. */
  lemma DeleteCreated(op: Op, r: Replies, b0: Backend, b1: Backend, del: Replies, requested: set<string>)
    requires op.Ensure? && Sound(b0) && Sound(b1) && op.server in b1.arrays
    requires Added(op.req, b0.used, ArrayOf(b0, op.server), ArrayOf(b1, op.server))
    requires var v := ArrayOf(b1, op.server)[|ArrayOf(b0, op.server)|];
             Legal(Delete(op.server, v.id), del, b1, requested) && Result(Delete(op.server, v.id), del, b1).Succeeded?
    ensures var v := ArrayOf(b1, op.server)[|ArrayOf(b0, op.server)|];
            SameArray(ArrayOf(b0, op.server), ArrayOf(Effect(Delete(op.server, v.id), del, b1), op.server))
  {
    var a0, a1 := ArrayOf(b0, op.server), ArrayOf(b1, op.server);
    var v := a1[|a0|];
    ByIDAt(a1, |a0|);
    assert ByID(a1, v.id) == Some(v) && !v.root;
    RemoveWrite(v.id, a1, del.put.stored, b1.used, requested, |a0|);
    AddedThenRemoved(op.req, b0.used, a0, a1, del.put.stored, |a0|);
  }

  /** What the create of a request answers. */
  function AnswerOf(req: ResizeRequest, r: Replies, b: Backend): CreateResponse {
    CreateAnswer(req, Result(EnsureOp(req), r, b))
  }

  /** A create that appended a disk and answered with a handle that can be read back. */
  predicate CreatedDisk(req: ResizeRequest, r: Replies, b: Backend, requested: set<string>, v: Volume) {
    && Sound(b) && Legal(EnsureOp(req), r, b, requested)
    && ByName(ArrayOf(b, EnsureOp(req).server), req.name).None?
    && Result(EnsureOp(req), r, b) == Succeeded(Some(v))
    && HandlePart(EnsureOp(req).server) && Trimmed(v.id) && HandlePart(v.id)
  }

  /** The answered handle of a newly created disk names that disk, and deleting it goes there. */
  lemma HandleNamesDisk(req: ResizeRequest, r: Replies, b: Backend, requested: set<string>, v: Volume,
                        down: set<string>, resolved: Option<seq<string>>)
    requires CreatedDisk(req, r, b, requested, v)
    ensures var op, answer := EnsureOp(req), AnswerOf(req, r, b);
            && answer.Created? && Decode(answer.handle) == Some(VolumeRef(op.server, v.id))
            && DeleteOp(Effect(op, r, b), down, resolved, VolumeRef(op.server, v.id)) == Delete(op.server, v.id)
  {
    var op := EnsureOp(req);
    AnsweredHandle(req, v);
    CreateAppends(op, r, b, requested, v);
    EffectSound(op, r, b, requested);
    FreshDiskTarget(b, Effect(op, r, b), op.server, v.id, down, resolved);
  }

  lemma CreateThenDeleteArrays(op: Op, r: Replies, b: Backend, v: Volume, del: Replies, requested: set<string>)
    requires op.Ensure? && Sound(b) && Legal(op, r, b, requested)
    requires ByName(ArrayOf(b, op.server), op.req.name).None? && Result(op, r, b) == Succeeded(Some(v))
    requires Legal(Delete(op.server, v.id), del, Effect(op, r, b), requested)
    requires Result(Delete(op.server, v.id), del, Effect(op, r, b)).Succeeded?
    ensures var after := Effect(Delete(op.server, v.id), del, Effect(op, r, b));
            && after.arrays.Keys == b.arrays.Keys
            && forall s :: s in b.arrays ==> SameArray(b.arrays[s], after.arrays[s])
  {
    var b1 := Effect(op, r, b);
    CreateAppends(op, r, b, requested, v);
    EffectSound(op, r, b, requested);
    DeleteCreated(op, r, b, b1, del, requested);
    EffectSound(Delete(op.server, v.id), del, b1, requested);
  }

  /**
   Create and delete undo each other: deleting the handle that was answered for a
   newly created disk, whatever the resolver knows and whichever servers do not
   answer the search, gives every array back as it was.
   */
  lemma CreateThenDelete(req: ResizeRequest, r: Replies, b: Backend, v: Volume, down: set<string>,
                         resolved: Option<seq<string>>, ref: VolumeRef, del: Replies, requested: set<string>)
    requires CreatedDisk(req, r, b, requested, v)
    requires AnswerOf(req, r, b).Created? && Decode(AnswerOf(req, r, b).handle) == Some(ref)
    requires var b1 := Effect(EnsureOp(req), r, b); var op := DeleteOp(b1, down, resolved, ref);
             Legal(op, del, b1, requested) && Result(op, del, b1).Succeeded?
    ensures var b1 := Effect(EnsureOp(req), r, b); var after := Effect(DeleteOp(b1, down, resolved, ref), del, b1);
            && after.arrays.Keys == b.arrays.Keys
            && forall s :: s in b.arrays ==> SameArray(b.arrays[s], after.arrays[s])
  {
    HandleNamesDisk(req, r, b, requested, v, down, resolved);
    CreateThenDeleteArrays(EnsureOp(req), r, b, v, del, requested);
  }

  // ------------------------------------------------------------ root volumes

  lemma GrownRoot(req: ResizeRequest, before: seq<Volume>, after: seq<Volume>, used: set<string>,
                  requested: set<string>, v: Volume)
    requires SoundArray(before, used) && ByName(before, req.name).Some?
    requires var named := ByName(before, req.name).value;
             named.sizeGiB < req.sizeGiB && Replaces(before, Resized(before, named.id, req), after, used, requested)
               && v in after && v.id == named.id
    ensures v.root == ByName(before, req.name).value.root
  {
    ByNameFound(before, req.name);
    var k: nat :| k < |before| && before[k] == ByName(before, req.name).value && before[k].name == req.name;
    GrowWrite(req, before, after, used, requested, k);
    var j :| 0 <= j < |after| && after[j] == v;
    assert j == k;
  }

  /**
   Only deletes, expands and moves look at the root flag: a create returns a root
   volume exactly when that has the name.
   */
  lemma CreateReturnsRoot(op: Op, r: Replies, b: Backend, requested: set<string>, v: Volume)
    requires op.Ensure? && Sound(b) && Legal(op, r, b, requested) && !Blank(op.req.name)
    requires Result(op, r, b) == Succeeded(Some(v))
    ensures v.root <==> var named := ByName(ArrayOf(b, op.server), op.req.name); named.Some? && named.value.root
  {
    var before := ArrayOf(b, op.server);
    var v' := EnsureResult(op, r, b, requested);
    if ByName(before, op.req.name).Some? && WritesArray(op, r, b) {
      GrownRoot(op.req, before, r.put.stored, b.used, requested, v);
    }
  }

  // ------------------------------------------------------------- size hints

  /** The node's size hint: the first positive size among the contexts. */
  function SizeHint(contexts: seq<map<string, string>>): int {
    if contexts == [] then 0
    else
      var value := Trim(Param(contexts[0], CONTEXT_SIZE_GIB));
      if value != "" && ParseIntIgnoringError(value) > 0 then ParseIntIgnoringError(value) else SizeHint(contexts[1..])
  }

  /** The size a context gives, as far as it can be read. */
  function SizeIn(context: map<string, string>): int {
    if "morpheus.sizeGiB" in context then ParseIntIgnoringError(Trim(context["morpheus.sizeGiB"])) else 0
  }

  /** The first context that gives a positive size decides; without one there is no hint. */
  lemma {:induction false} FirstSizeDecides(contexts: seq<map<string, string>>, k: nat)
    requires k <= |contexts| && forall j :: 0 <= j < k ==> SizeIn(contexts[j]) <= 0
    requires k < |contexts| ==> SizeIn(contexts[k]) > 0
    ensures SizeHint(contexts) == if k < |contexts| then SizeIn(contexts[k]) else 0
  {
    if k > 0 {
      FirstSizeDecides(contexts[1..], k - 1);
    }
  }

  /** The publish context carries the trimmed size of the volume context on. */
  function PublishedSize(volumeContext: map<string, string>): map<string, string> {
    var size := Trim(Param(volumeContext, CONTEXT_SIZE_GIB));
    if size != "" then map[CONTEXT_SIZE_GIB := size] else map[]
  }

  /** It is there exactly if it says something, and nothing else is. */
  lemma PublishedSizeExactly(volumeContext: map<string, string>)
    ensures var published := PublishedSize(volumeContext);
            && published.Keys <= {"morpheus.sizeGiB"}
            && ("morpheus.sizeGiB" in published <==>
                "morpheus.sizeGiB" in volumeContext && !Blank(volumeContext["morpheus.sizeGiB"]))
            && ("morpheus.sizeGiB" in published ==>
                published["morpheus.sizeGiB"] == Trim(volumeContext["morpheus.sizeGiB"]))
            && SizeIn(published) == SizeIn(volumeContext)
  {
    assert Trim("") == "";
  }

  lemma ContextSize(req: ResizeRequest, v: Volume)
    ensures Param(Context(req, v), CONTEXT_SIZE_GIB) == FormatInt(req.sizeGiB)
  {
  }

  /**
   The size hint that reaches the node is the size requested at creation. So
   the disk is recognised by its size exactly if its size still is the
   requested one: not when an existing larger volume was returned, and not
   after an expansion.
   */
  lemma HintMatchesDisk(req: ResizeRequest, v: Volume, actual: int)
    requires 0 < req.sizeGiB && IsInt64(req.sizeGiB) && 1 <= actual <= 0x1_ffff_ffff
    ensures var context := Context(req, v);
            var hint := SizeHint([PublishedSize(context), context]);
            && hint == req.sizeGiB
            && (BlockDeviceSizeGiB(FormatInt(actual * 0x20_0000)) == Some(hint) <==> actual == req.sizeGiB)
  {
    var context := Context(req, v);
    ContextSize(req, v);
    var text := FormatInt(req.sizeGiB);
    ParseFormat(req.sizeGiB);
    SectorsAgree(actual);
  }
}
