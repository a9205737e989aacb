/**
 The three operations that replace a server's whole volume array, each as one
 uninterrupted run: what it writes, what it leaves on the backend and what it
 returns, given the backend's replies.
 */
module ResizeOps {
  import opened Text
  import opened Volumes

  // -------------------------------------------------------------- operations

  /** The server of an ensure or expand is the one its storage class names; a delete gives it with the volume. */
  datatype Op =
    | Ensure(server: string, req: ResizeRequest)
    | Expand(server: string, req: ResizeRequest)
    | Delete(server: string, volumeId: string)

  function EnsureOp(req: ResizeRequest): Op {
    Ensure(StorageClassServerID(req.params), req)
  }

  function ExpandOp(req: ResizeRequest): Op {
    Expand(StorageClassServerID(req.params), req)
  }

  datatype Error =
    | InvalidRequest | GetFailed | PutFailed | PollFailed | Cancelled
    | VolumeNotFound | RootRefused | ShrinkRefused | LookupExhausted

  /** A delete succeeds without a volume. */
  datatype Outcome = Succeeded(volume: Option<Volume>) | Failed(error: Error)

  /** Requests that pass validation. */
  predicate Accepted(op: Op) {
    && !Blank(op.server)
    && match op
       case Ensure(_, req) => (!Blank(req.name) || !Blank(req.volumeId)) && req.sizeGiB > 0
       case Expand(_, req) => !Blank(req.volumeId) && req.sizeGiB > 0
       case Delete(_, volumeId) => !Blank(volumeId)
  }

  /** What an operation does with the array it read: answer at once, or write `next` and look for `id`. */
  datatype Plan = Answer(outcome: Outcome) | Write(next: seq<Volume>, id: string)

  function PlanEnsure(req: ResizeRequest, volumes: seq<Volume>): Plan {
    match ByName(volumes, req.name)
    case Some(existing) =>
      if existing.sizeGiB >= req.sizeGiB then Answer(Succeeded(Some(existing)))
      else Write(Resized(volumes, existing.id, req), existing.id)
    case None => Write(Resized(volumes, "", req), "")
  }

  function PlanExpand(req: ResizeRequest, volumes: seq<Volume>): Plan {
    match ByID(volumes, req.volumeId)
    case None => Answer(Failed(VolumeNotFound))
    case Some(existing) =>
      if existing.root then Answer(Failed(RootRefused))
      else if existing.sizeGiB > req.sizeGiB then Answer(Failed(ShrinkRefused))
      else if existing.sizeGiB == req.sizeGiB then Answer(Succeeded(Some(existing)))
      else Write(Resized(volumes, req.volumeId, req), req.volumeId)
  }

  function PlanDelete(volumeId: string, volumes: seq<Volume>): Plan {
    match ByID(volumes, volumeId)
    case None => Answer(Succeeded(None))
    case Some(target) =>
      if target.root then Answer(Failed(RootRefused)) else Write(Without(volumes, volumeId), "")
  }

  function PlanFor(op: Op, volumes: seq<Volume>): Plan {
    match op
    case Ensure(_, req) => PlanEnsure(req, volumes)
    case Expand(_, req) => PlanExpand(req, volumes)
    case Delete(_, volumeId) => PlanDelete(volumeId, volumes)
  }

  // ----------------------------------------------------------------- backend

  /** Volume arrays per server, and every id ever handed out. */
  datatype Backend = Backend(arrays: map<string, seq<Volume>>, used: set<string>)

  function ArrayOf(b: Backend, server: string): seq<Volume> {
    if server in b.arrays then b.arrays[server] else []
  }

  /** A volume array as a server description parses: distinct non-empty ids, trimmed names. */
  predicate SoundArray(vs: seq<Volume>, used: set<string>) {
    && Distinct(vs)
    && forall k :: 0 <= k < |vs| ==> vs[k].id != "" && vs[k].id in used && Trimmed(vs[k].name)
  }

  predicate Sound(b: Backend) {
    forall s :: s in b.arrays ==> SoundArray(b.arrays[s], b.used)
  }

  /** A field resent as it was read is kept; a changed one may be normalised by the backend. */
  predicate Resent(before: Volume, sent: Volume, kept: Volume) {
    && kept.id == sent.id && kept.sizeGiB == sent.sizeGiB && kept.root == sent.root && Trimmed(kept.name)
    && (sent.name == before.name ==> kept.name == sent.name)
    && (sent.storageType == before.storageType ==> kept.storageType == sent.storageType)
    && (sent.datastore == before.datastore ==> kept.datastore == sent.datastore)
    && (sent.mountPoint == before.mountPoint ==> kept.mountPoint == sent.mountPoint)
  }

  /** A new disk: a fresh id, the requested size, and the requested name or one nobody requests. */
  predicate Assigned(sent: Volume, kept: Volume, used: set<string>, requested: set<string>) {
    && kept.id != "" && kept.id !in used
    && !kept.root && kept.sizeGiB == sent.sizeGiB && Trimmed(kept.name)
    && (kept.name == Trim(sent.name) || kept.name !in requested)
  }

  /** The backend's side of a write: the whole array is replaced at once, entry by entry. */
  predicate Replaces(before: seq<Volume>, next: seq<Volume>, stored: seq<Volume>, used: set<string>,
                     requested: set<string>) {
    && |stored| == |next| && Distinct(stored)
    && forall k :: 0 <= k < |next| ==>
         if next[k].id == "" then Assigned(next[k], stored[k], used, requested)
         else ByID(before, next[k].id).Some? && Resent(ByID(before, next[k].id).value, next[k], stored[k])
  }

  datatype PutReply = Refused | AppliedButFailed(stored: seq<Volume>) | Applied(stored: seq<Volume>)

  datatype PollReply = PollCancelled | PollError | PollSeen

  /** The backend's replies to one operation. */
  datatype Replies = Replies(getOk: bool, put: PutReply, polls: seq<PollReply>)

  const LOOKUP_ATTEMPTS: nat := 6

  function PollAt(polls: seq<PollReply>, attempt: nat): PollReply {
    if attempt < |polls| then polls[attempt] else PollSeen
  }

  /** Can the backend give these replies to this operation? Names in `requested` are never used as generic names. */
  predicate Legal(op: Op, r: Replies, b: Backend, requested: set<string>) {
    Accepted(op) && r.getOk ==>
      && op.server in b.arrays
      && match PlanFor(op, ArrayOf(b, op.server))
         case Answer(_) => true
         case Write(next, _) => r.put.Refused? || Replaces(ArrayOf(b, op.server), next, r.put.stored, b.used, requested)
  }

  function Stored(b: Backend, server: string, stored: seq<Volume>): Backend {
    Backend(b.arrays[server := stored], b.used + IDs(stored))
  }

  predicate WritesArray(op: Op, r: Replies, b: Backend) {
    Accepted(op) && r.getOk && PlanFor(op, ArrayOf(b, op.server)).Write? && !r.put.Refused?
  }

  /** The backend after the operation ran alone. */
  function Effect(op: Op, r: Replies, b: Backend): Backend {
    if WritesArray(op, r, b) then Stored(b, op.server, r.put.stored) else b
  }

  /** The bounded lookup after a write, from a given attempt on. */
  function PollOutcome(polls: seq<PollReply>, attempt: nat, before: seq<Volume>, after: seq<Volume>, id: string,
                       req: ResizeRequest): Outcome
    decreases LOOKUP_ATTEMPTS - attempt
  {
    if attempt >= LOOKUP_ATTEMPTS then Failed(LookupExhausted)
    else
      match PollAt(polls, attempt)
      case PollCancelled => Failed(Cancelled)
      case PollError => Failed(PollFailed)
      case PollSeen =>
        if FindResized(before, after, id, req).Some? then Succeeded(FindResized(before, after, id, req))
        else PollOutcome(polls, attempt + 1, before, after, id, req)
  }

  /** What the operation returns when it runs alone. */
  function Result(op: Op, r: Replies, b: Backend): Outcome {
    if !Accepted(op) then Failed(InvalidRequest)
    else if !r.getOk then Failed(GetFailed)
    else
      var before := ArrayOf(b, op.server);
      match PlanFor(op, before)
      case Answer(outcome) => outcome
      case Write(_, id) =>
        if !r.put.Applied? then Failed(PutFailed)
        else if op.Delete? then Succeeded(None)
        else PollOutcome(r.polls, 0, before, r.put.stored, id, op.req)
  }

  // -------------------------------------------------------- rejected requests

  /** Some key of the storage class names a server. */
  predicate NamesServer(params: Parameters) {
    !Blank(Param(params, PARAM_SERVER_ID)) || !Blank(Param(params, PARAM_HOST_ID))
      || !Blank(Param(params, PARAM_INSTANCE_ID))
  }

  lemma {:induction false} PollNeverInvalid(polls: seq<PollReply>, attempt: nat, before: seq<Volume>,
                                            after: seq<Volume>, id: string, req: ResizeRequest)
    ensures PollOutcome(polls, attempt, before, after, id, req) != Failed(InvalidRequest)
    decreases LOOKUP_ATTEMPTS - attempt
  {
    if attempt < LOOKUP_ATTEMPTS {
      PollNeverInvalid(polls, attempt + 1, before, after, id, req);
    }
  }

  /**
   A request is rejected as invalid exactly when no key names a server, neither
   name nor id is given, or the size is not positive, whatever the backend says;
   and a rejected request never reaches the backend.
   */
  lemma InvalidExactly(req: ResizeRequest, r: Replies, b: Backend)
    ensures Result(EnsureOp(req), r, b) == Failed(InvalidRequest)
       <==> !NamesServer(req.params) || (Blank(req.name) && Blank(req.volumeId)) || req.sizeGiB <= 0
    ensures Result(EnsureOp(req), r, b) == Failed(InvalidRequest) ==> Effect(EnsureOp(req), r, b) == b
    ensures Accepted(EnsureOp(req)) <==> Result(EnsureOp(req), r, b) != Failed(InvalidRequest)
  {
    var before := ArrayOf(b, StorageClassServerID(req.params));
    match PlanEnsure(req, before)
    case Answer(_) =>
    case Write(_, id) =>
      if !r.put.Refused? {
        PollNeverInvalid(r.polls, 0, before, r.put.stored, id, req);
      }
  }

  /** An expand is rejected, too, without an id; a delete, without a server or an id. */
  lemma ExpandInvalidExactly(req: ResizeRequest, r: Replies, b: Backend)
    ensures Result(ExpandOp(req), r, b) == Failed(InvalidRequest)
       <==> !NamesServer(req.params) || Blank(req.volumeId) || req.sizeGiB <= 0
    ensures Result(ExpandOp(req), r, b) == Failed(InvalidRequest) ==> Effect(ExpandOp(req), r, b) == b
  {
    var before := ArrayOf(b, StorageClassServerID(req.params));
    if !r.put.Refused? {
      PollNeverInvalid(r.polls, 0, before, r.put.stored, req.volumeId, req);
    }
  }

  lemma DeleteInvalidExactly(server: string, volumeId: string, r: Replies, b: Backend)
    ensures Result(Delete(server, volumeId), r, b) == Failed(InvalidRequest) <==> Blank(server) || Blank(volumeId)
    ensures Result(Delete(server, volumeId), r, b) == Failed(InvalidRequest) ==>
              Effect(Delete(server, volumeId), r, b) == b
  {
  }

  // -------------------------------------------- the shape of a single write

  /** Equal in everything that is written; the device path is not. */
  predicate SameEntry(a: Volume, b: Volume) {
    a.(devicePath := "") == b.(devicePath := "")
  }

  /** One non-root entry with a fresh id was appended because the name was absent. */
  predicate Added(req: ResizeRequest, used: set<string>, before: seq<Volume>, after: seq<Volume>) {
    && |after| == |before| + 1
    && (forall k :: 0 <= k < |before| ==> SameEntry(before[k], after[k]) && before[k].name != req.name)
    && var disk := after[|before|]; disk.id !in used && !disk.root && disk.sizeGiB == req.sizeGiB
  }

  /**
   Entry k was enlarged; only its blank type and datastore may have been filled,
   and a new name only if one was given.
   */
  predicate GrownEntry(req: ResizeRequest, a: Volume, b: Volume) {
    && b.id == a.id && b.root == a.root && b.mountPoint == a.mountPoint
    && a.sizeGiB < b.sizeGiB == req.sizeGiB
    && (!Blank(a.storageType) ==> b.storageType == a.storageType)
    && (!Blank(a.datastore) ==> b.datastore == a.datastore)
    && (Blank(req.name) || req.name == a.name ==> b.name == a.name)
  }

  predicate GrewOne(req: ResizeRequest, before: seq<Volume>, after: seq<Volume>, k: nat) {
    && |after| == |before| && k < |before|
    && (forall j :: 0 <= j < |before| && j != k ==> SameEntry(before[j], after[j]))
    && GrownEntry(req, before[k], after[k])
  }

  /** Entry k, not a root volume, was dropped; the others keep their order. */
  predicate RemovedOne(volumeId: string, before: seq<Volume>, after: seq<Volume>, k: nat) {
    && |after| == |before| - 1 && k < |before|
    && before[k].id == volumeId && !before[k].root
    && (forall j :: 0 <= j < k ==> SameEntry(before[j], after[j]))
    && (forall j :: k <= j < |after| ==> SameEntry(before[j + 1], after[j]))
  }

  /** Every write is exactly one of the three edits. */
  ghost predicate OneEdit(op: Op, used: set<string>, before: seq<Volume>, after: seq<Volume>) {
    match op
    case Ensure(_, req) =>
      Added(req, used, before, after)
      || exists k: nat :: GrewOne(req, before, after, k) && before[k].name == req.name
    case Expand(_, req) =>
      exists k: nat :: GrewOne(req, before, after, k) && before[k].id == req.volumeId && !before[k].root
    case Delete(_, volumeId) =>
      exists k: nat :: RemovedOne(volumeId, before, after, k)
  }

  /** An entry resent as it was read comes back as it was. */
  lemma ResentSame(before: seq<Volume>, next: seq<Volume>, stored: seq<Volume>, used: set<string>,
                   requested: set<string>, j: nat, k: nat)
    requires SoundArray(before, used) && Replaces(before, next, stored, used, requested)
    requires j < |before| && k < |next| && next[k] == before[j]
    ensures SameEntry(before[j], stored[k])
  {
    ByIDAt(before, j);
  }

  lemma GrowWrite(req: ResizeRequest, before: seq<Volume>, stored: seq<Volume>, used: set<string>,
                  requested: set<string>, k: nat)
    requires SoundArray(before, used) && k < |before| && before[k].sizeGiB < req.sizeGiB
    requires Replaces(before, Resized(before, before[k].id, req), stored, used, requested)
    ensures GrewOne(req, before, stored, k)
  {
    var id := before[k].id;
    assert Touches(before[k], id, req);
    var next := GrowAll(before, id, req);
    assert Resized(before, id, req) == next;
    forall j | 0 <= j < |before| && j != k ensures SameEntry(before[j], stored[j]) {
      assert !Touches(before[j], id, req);
      ResentSame(before, next, stored, used, requested, j, j);
    }
    assert next[k] == Grown(before[k], req);
    ByIDAt(before, k);
    assert Resent(before[k], next[k], stored[k]);
  }

  /** Where the name is absent, the requested disk is appended and nothing else changes. */
  lemma CreateNext(req: ResizeRequest, before: seq<Volume>, used: set<string>)
    requires SoundArray(before, used) && ByName(before, req.name).None?
    ensures Resized(before, "", req) == before + [Requested(req)]
  {
    ByNameFound(before, req.name);
    assert forall k :: 0 <= k < |before| ==> !Touches(before[k], "", req);
  }

  lemma AppendWrite(req: ResizeRequest, before: seq<Volume>, next: seq<Volume>, stored: seq<Volume>,
                    used: set<string>, requested: set<string>)
    requires SoundArray(before, used) && next == before + [Requested(req)]
             && Replaces(before, next, stored, used, requested)
    ensures |stored| == |before| + 1 && forall k :: 0 <= k < |before| ==> SameEntry(before[k], stored[k])
    ensures Assigned(Requested(req), stored[|before|], used, requested)
  {
    forall k | 0 <= k < |before| ensures SameEntry(before[k], stored[k]) {
      ResentSame(before, next, stored, used, requested, k, k);
    }
    assert next[|before|] == Requested(req);
  }

  lemma CreateWrite(req: ResizeRequest, before: seq<Volume>, stored: seq<Volume>, used: set<string>,
                    requested: set<string>)
    requires SoundArray(before, used) && ByName(before, req.name).None?
    requires Replaces(before, Resized(before, "", req), stored, used, requested)
    ensures Added(req, used, before, stored)
    ensures Assigned(Requested(req), stored[|before|], used, requested)
  {
    CreateNext(req, before, used);
    ByNameFound(before, req.name);
    AppendWrite(req, before, before + [Requested(req)], stored, used, requested);
  }

  lemma RemoveWrite(volumeId: string, before: seq<Volume>, stored: seq<Volume>, used: set<string>,
                    requested: set<string>, k: nat)
    requires SoundArray(before, used) && k < |before| && before[k].id == volumeId && !before[k].root
    requires Replaces(before, Without(before, volumeId), stored, used, requested)
    ensures RemovedOne(volumeId, before, stored, k)
  {
    WithoutAt(before, k);
    var next := Without(before, volumeId);
    forall j | 0 <= j < k ensures SameEntry(before[j], stored[j]) {
      ResentSame(before, next, stored, used, requested, j, j);
    }
    forall j | k <= j < |stored| ensures SameEntry(before[j + 1], stored[j]) {
      ResentSame(before, next, stored, used, requested, j + 1, j);
    }
  }

  /** Frame of a write: one entry is added, grown or removed, and every other entry keeps its order and fields. */
  lemma WriteIsOneEdit(op: Op, r: Replies, b: Backend, requested: set<string>)
    requires Sound(b) && Legal(op, r, b, requested) && WritesArray(op, r, b)
    ensures OneEdit(op, b.used, ArrayOf(b, op.server), r.put.stored)
  {
    var before, stored := ArrayOf(b, op.server), r.put.stored;
    match op
    case Ensure(_, req) =>
      ByNameFound(before, req.name);
      if ByName(before, req.name).Some? {
        var k :| 0 <= k < |before| && before[k] == ByName(before, req.name).value && before[k].name == req.name;
        GrowWrite(req, before, stored, b.used, requested, k);
      } else {
        CreateWrite(req, before, stored, b.used, requested);
      }
    case Expand(_, req) =>
      ByIDFound(before, req.volumeId);
      var k :| 0 <= k < |before| && before[k] == ByID(before, req.volumeId).value && before[k].id == req.volumeId;
      GrowWrite(req, before, stored, b.used, requested, k);
    case Delete(_, volumeId) =>
      ByIDFound(before, volumeId);
      var k :| 0 <= k < |before| && before[k] == ByID(before, volumeId).value && before[k].id == volumeId;
      RemoveWrite(volumeId, before, stored, b.used, requested, k);
  }

  // ----------------------------------------- what one operation does to arrays

  /**
   Volume a lives on as b: same disk, not smaller, only blank fields filled, and
   its name kept unless it may be renamed.
   */
  predicate Survives(a: Volume, b: Volume, renamed: set<string>) {
    && b.id == a.id && b.root == a.root && b.mountPoint == a.mountPoint
    && a.sizeGiB <= b.sizeGiB
    && (!Blank(a.storageType) ==> b.storageType == a.storageType)
    && (!Blank(a.datastore) ==> b.datastore == a.datastore)
    && (a.id !in renamed ==> b.name == a.name)
  }

  ghost predicate LivesOn(a: Volume, after: seq<Volume>, renamed: set<string>) {
    exists j :: 0 <= j < |after| && Survives(a, after[j], renamed)
  }

  ghost predicate Inherited(before: seq<Volume>, b: Volume, renamed: set<string>) {
    exists i :: 0 <= i < |before| && Survives(before[i], b, renamed)
  }

  /** Every entry that is not new descends from an earlier one. */
  ghost predicate NothingResurrected(before: seq<Volume>, after: seq<Volume>, used: set<string>, renamed: set<string>) {
    forall j :: 0 <= j < |after| && after[j].id in used ==> Inherited(before, after[j], renamed)
  }

  /** Every root entry and every entry not deleted lives on. */
  ghost predicate NothingLost(before: seq<Volume>, after: seq<Volume>, deleted: set<string>, renamed: set<string>) {
    forall i :: 0 <= i < |before| && (before[i].root || before[i].id !in deleted) ==> LivesOn(before[i], after, renamed)
  }

  function Deleted(op: Op): set<string> {
    if op.Delete? then {op.volumeId} else {}
  }

  /** Only an expand that carries a name renames; the controller issues none. */
  function Renamed(op: Op): set<string> {
    if op.Expand? && !Blank(op.req.name) then {op.req.volumeId} else {}
  }

  lemma GrewKeeps(req: ResizeRequest, used: set<string>, before: seq<Volume>, after: seq<Volume>, k: nat,
                  renamed: set<string>)
    requires GrewOne(req, before, after, k)
    requires before[k].id !in renamed ==> Blank(req.name) || before[k].name == req.name
    ensures NothingResurrected(before, after, used, renamed) && NothingLost(before, after, {}, renamed)
  {
    forall j | 0 <= j < |before| ensures Survives(before[j], after[j], renamed) {
      assert j != k ==> SameEntry(before[j], after[j]);
    }
  }

  lemma AddedKeeps(req: ResizeRequest, used: set<string>, before: seq<Volume>, after: seq<Volume>)
    requires Added(req, used, before, after)
    ensures NothingResurrected(before, after, used, {})
    ensures NothingLost(before, after, {}, {})
  {
  }

  lemma RemovedKeeps(volumeId: string, used: set<string>, before: seq<Volume>, after: seq<Volume>, k: nat)
    requires Distinct(before) && RemovedOne(volumeId, before, after, k)
    ensures NothingResurrected(before, after, used, {}) && NothingLost(before, after, {volumeId}, {})
  {
    forall j | 0 <= j < |after| ensures Inherited(before, after[j], {}) {
      var i := if j < k then j else j + 1;
      assert SameEntry(before[i], after[j]);
      assert Survives(before[i], after[j], {});
    }
    forall i | 0 <= i < |before| && i != k ensures LivesOn(before[i], after, {}) {
      var j := if i < k then i else i - 1;
      assert SameEntry(before[i], after[j]);
      assert Survives(before[i], after[j], {});
    }
  }

  lemma EditKeeps(op: Op, used: set<string>, before: seq<Volume>, after: seq<Volume>)
    requires SoundArray(before, used) && OneEdit(op, used, before, after)
    ensures NothingResurrected(before, after, used, Renamed(op))
    ensures NothingLost(before, after, Deleted(op), Renamed(op))
  {
    match op
    case Ensure(_, req) =>
      if k: nat :| GrewOne(req, before, after, k) && before[k].name == req.name {
        GrewKeeps(req, used, before, after, k, {});
      } else {
        AddedKeeps(req, used, before, after);
      }
    case Expand(_, req) =>
      var k: nat :| GrewOne(req, before, after, k) && before[k].id == req.volumeId;
      GrewKeeps(req, used, before, after, k, Renamed(op));
    case Delete(_, volumeId) =>
      var k: nat :| RemovedOne(volumeId, before, after, k);
      RemovedKeeps(volumeId, used, before, after, k);
  }

  /** An operation keeps the backend sound, and only touches the array of its own server. */
  lemma EffectSound(op: Op, r: Replies, b: Backend, requested: set<string>)
    requires Sound(b) && Legal(op, r, b, requested)
    ensures Sound(Effect(op, r, b)) && b.used <= Effect(op, r, b).used
    ensures Effect(op, r, b).arrays.Keys == b.arrays.Keys
    ensures forall s :: s in b.arrays && s != op.server ==> Effect(op, r, b).arrays[s] == b.arrays[s]
  {
  }

  lemma UnchangedKeeps(vs: seq<Volume>, used: set<string>, deleted: set<string>, renamed: set<string>)
    ensures NothingResurrected(vs, vs, used, renamed) && NothingLost(vs, vs, deleted, renamed)
  {
    forall k | 0 <= k < |vs| ensures Survives(vs[k], vs[k], renamed) {
    }
  }

  /** What one operation may do to the array of any server. */
  lemma EffectKeeps(op: Op, r: Replies, b: Backend, requested: set<string>, s: string)
    requires Sound(b) && Legal(op, r, b, requested)
    ensures NothingResurrected(ArrayOf(b, s), ArrayOf(Effect(op, r, b), s), b.used, Renamed(op))
    ensures NothingLost(ArrayOf(b, s), ArrayOf(Effect(op, r, b), s), Deleted(op), Renamed(op))
  {
    if s == op.server && WritesArray(op, r, b) {
      WriteIsOneEdit(op, r, b, requested);
      EditKeeps(op, b.used, ArrayOf(b, s), r.put.stored);
    } else {
      EffectSound(op, r, b, requested);
      UnchangedKeeps(ArrayOf(b, s), b.used, Deleted(op), Renamed(op));
    }
  }
}
