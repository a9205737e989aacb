/**
 Repeating Ensure for one name, as CreateVolume retries do: when that gives one
 volume and one id, and when it adds another disk.
 */
module Idempotence {
  import opened Text
  import opened Volumes
  import opened ResizeOps
  import opened History
  import opened ResizeProtocol
  import opened Linearizability
  import opened ResizeTheorems

  predicate AtMostOne(vs: seq<Volume>, name: string) {
    forall i, j :: 0 <= i < |vs| && 0 <= j < |vs| && vs[i].name == name && vs[j].name == name ==> i == j
  }

  lemma ByNameOnly(vs: seq<Volume>, k: nat, name: string)
    requires k < |vs| && vs[k].name == name && AtMostOne(vs, name)
    ensures ByName(vs, name) == Some(vs[k])
  {
    ByNameFound(vs, name);
  }

  function Max(a: int, b: int): int {
    if a >= b then a else b
  }

  // ---------------------------------------------------- one edit, and a name

  /** The same volume, not smaller. */
  predicate Continues(was: Option<Volume>, now: Option<Volume>) {
    was.Some? ==> now.Some? && now.value.id == was.value.id && was.value.sizeGiB <= now.value.sizeGiB
  }

  /** The volume of a name stays the one volume of that name. */
  predicate NameStays(before: seq<Volume>, after: seq<Volume>, name: string) {
    AtMostOne(before, name) ==> AtMostOne(after, name) && Continues(ByName(before, name), ByName(after, name))
  }

  lemma GrowKeepsName(req: ResizeRequest, before: seq<Volume>, after: seq<Volume>, k: nat, name: string)
    requires GrewOne(req, before, after, k) && (Blank(req.name) || before[k].name == req.name)
    ensures NameStays(before, after, name)
  {
    assert forall j :: 0 <= j < |before| && j != k ==> SameEntry(before[j], after[j]);
    ByNameFound(before, name);
    if AtMostOne(before, name) && ByName(before, name).Some? {
      var i: nat :| i < |before| && before[i] == ByName(before, name).value && before[i].name == name;
      ByNameOnly(after, i, name);
    }
  }

  /** Adding a disk keeps the volume of a name, if there is one or the new disk has another name. */
  lemma AddKeepsName(req: ResizeRequest, used: set<string>, before: seq<Volume>, after: seq<Volume>, name: string)
    requires Added(req, used, before, after)
    requires after[|before|].name == name ==> ByName(before, name).None?
    ensures NameStays(before, after, name)
  {
    assert forall j :: 0 <= j < |before| ==> SameEntry(before[j], after[j]);
    ByNameFound(before, name);
    if AtMostOne(before, name) && ByName(before, name).Some? {
      var i: nat :| i < |before| && before[i] == ByName(before, name).value && before[i].name == name;
      ByNameOnly(after, i, name);
    }
  }

  /** Where the name was absent, only the added disk can have it. */
  lemma AddFindsName(req: ResizeRequest, used: set<string>, before: seq<Volume>, after: seq<Volume>, name: string)
    requires Added(req, used, before, after) && ByName(before, name).None?
    ensures ByName(after, name) == if after[|before|].name == name then Some(after[|before|]) else None
  {
    assert forall j :: 0 <= j < |before| ==> SameEntry(before[j], after[j]);
    ByNameFound(before, name);
    ByNameFound(after, name);
  }

  lemma RemoveKeepsName(volumeId: string, before: seq<Volume>, after: seq<Volume>, k: nat, name: string)
    requires RemovedOne(volumeId, before, after, k)
    ensures AtMostOne(before, name) ==> AtMostOne(after, name)
    ensures NameStays(before, after, name)
            || (ByName(before, name).Some? && ByName(before, name).value.id == volumeId)
  {
    assert forall j :: 0 <= j < k ==> SameEntry(before[j], after[j]);
    assert forall j :: k <= j < |after| ==> SameEntry(before[j + 1], after[j]);
    if AtMostOne(before, name) {
      forall i, j | 0 <= i < |after| && 0 <= j < |after| && after[i].name == name && after[j].name == name
        ensures i == j
      {
        var i', j' := if i < k then i else i + 1, if j < k then j else j + 1;
        assert before[i'].name == name && before[j'].name == name;
      }
      ByNameFound(before, name);
      if ByName(before, name).Some? {
        var i: nat :| i < |before| && before[i] == ByName(before, name).value && before[i].name == name;
        if i != k {
          ByNameOnly(after, if i < k then i else i - 1, name);
        }
      }
    }
  }

  // -------------------------------------------------------------- one Ensure

  /**
   A request that created a disk and is sent again: it is answered with that
   disk exactly when the backend kept the name, and else adds another disk.
   */
  lemma RepeatPlanned(op: Op, r: Replies, b: Backend, requested: set<string>, v: Volume)
    requires op.Ensure? && Sound(b) && Legal(op, r, b, requested)
    requires ByName(ArrayOf(b, op.server), op.req.name).None? && Result(op, r, b) == Succeeded(Some(v))
    ensures var after := ArrayOf(Effect(op, r, b), op.server);
            PlanFor(op, after) == if v.name == op.req.name then Answer(Succeeded(Some(v)))
              else Write(after + [Requested(op.req)], "")
  {
    var before := ArrayOf(b, op.server);
    var after := r.put.stored;
    PollFinds(r.polls, 0, before, after, "", op.req);
    CreateWrite(op.req, before, after, b.used, requested);
    CreateFindsNewDisk(op.req, before, after, b.used);
    AddFindsName(op.req, b.used, before, after, op.req.name);
    EffectSound(op, r, b, requested);
    if v.name != op.req.name {
      CreateNext(op.req, after, Effect(op, r, b).used);
    }
  }

  /** A backend that stores the requested disk under a name nobody asked for. */
  predicate RenamedDisk(req: ResizeRequest, b: Backend, requested: set<string>, disk: Volume) {
    && disk.id != "" && disk.id !in b.used && !disk.root && disk.sizeGiB == req.sizeGiB
    && Trimmed(disk.name) && disk.name !in requested && disk.name != req.name
    && disk.storageType == "" && disk.datastore == ""
  }

  lemma AppendReplaces(before: seq<Volume>, req: ResizeRequest, b: Backend, requested: set<string>, disk: Volume)
    requires SoundArray(before, b.used) && RenamedDisk(req, b, requested, disk)
    ensures Replaces(before, before + [Requested(req)], before + [disk], b.used, requested)
  {
    forall k | 0 <= k < |before|
      ensures ByID(before, before[k].id) == Some(before[k]) && Resent(before[k], before[k], before[k])
    {
      ByIDAt(before, k);
    }
    assert Assigned(Requested(req), disk, b.used, requested);
  }

  lemma DiskIsFound(before: seq<Volume>, req: ResizeRequest, b: Backend, requested: set<string>, disk: Volume)
    requires SoundArray(before, b.used) && RenamedDisk(req, b, requested, disk) && ByName(before, req.name).None?
    ensures FindResized(before, before + [disk], "", req) == Some(disk)
  {
    var after, known := before + [disk], NonEmptyIDs(before);
    ByNameFound(before, req.name);
    ByNameFound(after, req.name);
    assert disk.id !in known;
    assert IsNewCandidate(after[|before|], known, req);
    FirstNewFound(after, known, req);
    forall k | 0 <= k < |before| ensures after[k].id in known {
      assert before[k].id in IDs(before);
    }
    var k :| 0 <= k < |after| && after[k] == FirstNew(after, known, req).value && IsNewCandidate(after[k], known, req);
    assert k == |before|;
  }

  /**
   Any create can meet a renaming backend: a successful reply under another
   name, after which the same request would write a second new disk.
   */
  lemma RenamingBackend(op: Op, b: Backend, requested: set<string>, disk: Volume)
    requires op.Ensure? && Sound(b) && Accepted(op) && op.server in b.arrays
    requires ByName(ArrayOf(b, op.server), op.req.name).None? && RenamedDisk(op.req, b, requested, disk)
    ensures var before := ArrayOf(b, op.server); var r := Replies(true, Applied(before + [disk]), []);
            && Legal(op, r, b, requested) && Result(op, r, b) == Succeeded(Some(disk))
            && PlanFor(op, ArrayOf(Effect(op, r, b), op.server)) == Write(before + [disk] + [Requested(op.req)], "")
  {
    var before := ArrayOf(b, op.server);
    var r := Replies(true, Applied(before + [disk]), []);
    CreateNext(op.req, before, b.used);
    AppendReplaces(before, op.req, b, requested, disk);
    DiskIsFound(before, op.req, b, requested, disk);
    assert PollOutcome(r.polls, 0, before, before + [disk], "", op.req) == Succeeded(Some(disk));
    RepeatPlanned(op, r, b, requested, disk);
  }

  /** Such a backend exists: a disk asked for as "pvc-123" that is listed as "Hard Disk 2". */
  lemma HardDisk2()
    ensures RenamedDisk(ResizeRequest("pvc-123", 10, map[], ""), Backend(map["s" := []], {}), {"pvc-123"},
                        Volume("test-volume-never-real", "Hard Disk 2", 10, false, "", "", "", ""))
  {
    assert "Hard Disk 2"[0] == 'H' && "Hard Disk 2"[10] == '2' && "pvc-123"[0] == 'p';
  }

  /** What a success of one Ensure for a name says, on an array with at most one volume of it. */
  predicate Settled(req: ResizeRequest, was: Option<Volume>, now: Option<Volume>, v: Volume) {
    && (now.Some? <==> was.Some? || v.name == req.name)
    && (was.Some? ==> v.name == req.name)
    && (now.Some? ==>
          && now.value.id == v.id
          && now.value.sizeGiB == if was.Some? then Max(was.value.sizeGiB, req.sizeGiB) else req.sizeGiB)
  }

  lemma EnsureGrows(req: ResizeRequest, before: seq<Volume>, after: seq<Volume>, used: set<string>,
                    requested: set<string>)
    requires SoundArray(before, used) && AtMostOne(before, req.name) && ByName(before, req.name).Some?
    requires ByName(before, req.name).value.sizeGiB < req.sizeGiB
    requires Replaces(before, Resized(before, ByName(before, req.name).value.id, req), after, used, requested)
    ensures AtMostOne(after, req.name) && NameStays(before, after, req.name)
    ensures var was, now := ByName(before, req.name).value, ByName(after, req.name).value;
            now.sizeGiB == req.sizeGiB && now.name == req.name && ByID(after, was.id) == Some(now)
  {
    ByNameFound(before, req.name);
    var k: nat :| k < |before| && before[k] == ByName(before, req.name).value && before[k].name == req.name;
    GrowWrite(req, before, after, used, requested, k);
    GrowKeepsName(req, before, after, k, req.name);
    ByNameOnly(after, k, req.name);
    ByIDAt(after, k);
  }

  lemma EnsureCreates(req: ResizeRequest, before: seq<Volume>, after: seq<Volume>, used: set<string>,
                      requested: set<string>)
    requires SoundArray(before, used) && ByName(before, req.name).None?
    requires Replaces(before, Resized(before, "", req), after, used, requested)
    ensures AtMostOne(after, req.name) && |after| == |before| + 1 && after[|before|].sizeGiB == req.sizeGiB
    ensures ByName(after, req.name) == if after[|before|].name == req.name then Some(after[|before|]) else None
    ensures FindResized(before, after, "", req).Some? ==> FindResized(before, after, "", req).value == after[|before|]
  {
    ByNameFound(before, req.name);
    CreateWrite(req, before, after, used, requested);
    AddKeepsName(req, used, before, after, req.name);
    AddFindsName(req, used, before, after, req.name);
    if FindResized(before, after, "", req).Some? {
      CreateFindsNewDisk(req, before, after, used);
    }
  }

  /**
   One Ensure, whatever its outcome: no second volume of the name appears, the
   one there is keeps its id and does not shrink; after a success there is one
   exactly if there was one or the backend kept the requested name.
   */
  lemma EnsureOnce(op: Op, r: Replies, b: Backend, requested: set<string>)
    requires op.Ensure? && Sound(b) && Legal(op, r, b, requested) && !Blank(op.req.name)
    requires AtMostOne(ArrayOf(b, op.server), op.req.name)
    ensures var before, after := ArrayOf(b, op.server), ArrayOf(Effect(op, r, b), op.server);
            var out := Result(op, r, b);
            && AtMostOne(after, op.req.name) && NameStays(before, after, op.req.name)
            && (out.Succeeded? ==>
                  out.volume.Some? && Settled(op.req, ByName(before, op.req.name), ByName(after, op.req.name),
                    out.volume.value))
  {
    var before := ArrayOf(b, op.server);
    if Result(op, r, b).Succeeded? {
      var v := EnsureResult(op, r, b, requested);
    }
    if WritesArray(op, r, b) {
      var after := r.put.stored;
      if Result(op, r, b).Succeeded? {
        PollFinds(r.polls, 0, before, after, PlanFor(op, before).id, op.req);
      }
      if ByName(before, op.req.name).Some? {
        EnsureGrows(op.req, before, after, b.used, requested);
      } else {
        EnsureCreates(op.req, before, after, b.used, requested);
      }
    }
  }

  // ------------------------------------------------- any operation, and a name

  /**
   An operation that leaves a name on a server alone: a request is for this name
   or for one that differs in more than spaces, and no expand that carries a name
   gets this one stored for its disk.
   */
  predicate Tolerates(op: Op, r: Replies, server: string, name: string) {
    op.server == server ==>
      && (op.Ensure? && op.req.name != name ==> Trim(op.req.name) != Trim(name))
      && (Renamed(op) != {} && !r.put.Refused? ==>
            forall k :: 0 <= k < |r.put.stored| && r.put.stored[k].id in Renamed(op) ==> r.put.stored[k].name != name)
  }

  /** The operation deletes the volume of this name, or is an expand that carries a name for it. */
  predicate TakesNamed(op: Op, server: string, was: Option<Volume>) {
    op.server == server && was.Some? && was.value.id in Deleted(op) + Renamed(op)
  }

  lemma AddTolerates(req: ResizeRequest, used: set<string>, requested: set<string>, before: seq<Volume>,
                     after: seq<Volume>, name: string)
    requires Added(req, used, before, after) && Assigned(Requested(req), after[|before|], used, requested)
    requires name in requested && (req.name != name ==> Trim(req.name) != Trim(name))
    requires req.name == name ==> ByName(before, name).None?
    ensures NameStays(before, after, name)
    ensures req.name != name && ByName(before, name).None? ==> ByName(after, name).None?
  {
    var disk := after[|before|];
    assert disk.name == name && req.name != name ==> disk.name == Trim(req.name);
    AddKeepsName(req, used, before, after, name);
    if ByName(before, name).None? {
      AddFindsName(req, used, before, after, name);
    }
  }

  lemma EnsureTolerates(req: ResizeRequest, before: seq<Volume>, stored: seq<Volume>, used: set<string>,
                        requested: set<string>, name: string)
    requires SoundArray(before, used) && name in requested && (req.name != name ==> Trim(req.name) != Trim(name))
    requires var plan := PlanEnsure(req, before); plan.Write? && Replaces(before, plan.next, stored, used, requested)
    ensures NameStays(before, stored, name)
  {
    ByNameFound(before, req.name);
    if ByName(before, req.name).Some? {
      var k: nat :| k < |before| && before[k] == ByName(before, req.name).value && before[k].name == req.name;
      GrowWrite(req, before, stored, used, requested, k);
      GrowKeepsName(req, before, stored, k, name);
    } else {
      CreateWrite(req, before, stored, used, requested);
      AddTolerates(req, used, requested, before, stored, name);
    }
  }

  /** Where the entry that grew has another name afterwards, the volume of the name stays, or it was that entry. */
  lemma GrowRenames(req: ResizeRequest, before: seq<Volume>, after: seq<Volume>, k: nat, name: string)
    requires GrewOne(req, before, after, k) && after[k].name != name
    ensures AtMostOne(before, name) ==> AtMostOne(after, name)
    ensures NameStays(before, after, name)
            || (ByName(before, name).Some? && ByName(before, name).value.id == before[k].id)
  {
    assert forall j :: 0 <= j < |before| && j != k ==> SameEntry(before[j], after[j]);
    ByNameFound(before, name);
    if AtMostOne(before, name) && ByName(before, name).Some? {
      var i: nat :| i < |before| && before[i] == ByName(before, name).value && before[i].name == name;
      if i != k {
        ByNameOnly(after, i, name);
      }
    }
  }

  lemma ExpandTolerates(req: ResizeRequest, before: seq<Volume>, stored: seq<Volume>, used: set<string>,
                        requested: set<string>, name: string)
    requires SoundArray(before, used)
    requires var plan := PlanExpand(req, before); plan.Write? && Replaces(before, plan.next, stored, used, requested)
    requires Blank(req.name) || forall k :: 0 <= k < |stored| && stored[k].id == req.volumeId ==> stored[k].name != name
    ensures AtMostOne(before, name) ==> AtMostOne(stored, name)
    ensures NameStays(before, stored, name)
            || (!Blank(req.name) && ByName(before, name).Some? && ByName(before, name).value.id == req.volumeId)
  {
    ByIDFound(before, req.volumeId);
    var k: nat :| k < |before| && before[k] == ByID(before, req.volumeId).value && before[k].id == req.volumeId;
    GrowWrite(req, before, stored, used, requested, k);
    if Blank(req.name) {
      GrowKeepsName(req, before, stored, k, name);
    } else {
      GrowRenames(req, before, stored, k, name);
    }
  }

  lemma DeleteTolerates(volumeId: string, before: seq<Volume>, stored: seq<Volume>, used: set<string>,
                        requested: set<string>, name: string)
    requires SoundArray(before, used)
    requires var plan := PlanDelete(volumeId, before);
             plan.Write? && Replaces(before, plan.next, stored, used, requested)
    ensures AtMostOne(before, name) ==> AtMostOne(stored, name)
    ensures NameStays(before, stored, name) || (ByName(before, name).Some? && ByName(before, name).value.id == volumeId)
  {
    ByIDFound(before, volumeId);
    var k: nat :| k < |before| && before[k] == ByID(before, volumeId).value && before[k].id == volumeId;
    RemoveWrite(volumeId, before, stored, used, requested, k);
    RemoveKeepsName(volumeId, before, stored, k, name);
  }

  /**
   Whatever else runs, creations, expansions and deletions of other volumes
   included, there is never a second volume of a name, and the one there is
   stays unless a delete or an expand that carries a name takes it.
   */
  lemma OpKeepsName(op: Op, r: Replies, b: Backend, requested: set<string>, server: string, name: string)
    requires Sound(b) && Legal(op, r, b, requested) && name in requested && Tolerates(op, r, server, name)
    ensures var before, after := ArrayOf(b, server), ArrayOf(Effect(op, r, b), server);
            && (AtMostOne(before, name) ==> AtMostOne(after, name))
            && (NameStays(before, after, name) || TakesNamed(op, server, ByName(before, name)))
  {
    var before := ArrayOf(b, server);
    if op.server == server && WritesArray(op, r, b) {
      match op
      case Ensure(_, req) => EnsureTolerates(req, before, r.put.stored, b.used, requested, name);
      case Expand(_, req) => ExpandTolerates(req, before, r.put.stored, b.used, requested, name);
      case Delete(_, volumeId) => DeleteTolerates(volumeId, before, r.put.stored, b.used, requested, name);
    } else {
      EffectSound(op, r, b, requested);
    }
  }

  // ------------------------------------------------------------- histories

  /** All logged operations leave the name on the server alone, and one operation requests it. */
  predicate Tolerated(p: Program, log: seq<nat>, server: string, name: string)
    requires ValidLog(p, log)
  {
    && !Blank(name) && name in RequestedNames(p.ops)
    && forall i :: 0 <= i < |log| ==> Tolerates(p.ops[log[i]], p.reps[log[i]], server, name)
  }

  /** Ids that some delete on this server names, or some expand there carries a name for. */
  function TakenOn(ops: seq<Op>, server: string): set<string> {
    DeletedOn(ops, server) + RenamedOn(ops, server)
  }

  predicate Requests(op: Op, server: string, name: string) {
    op.Ensure? && op.server == server && op.req.name == name
  }

  /** The array of a server after the first k operations of a history. */
  function ArrayAt(p: Program, log: seq<nat>, b0: Backend, server: string, k: nat): seq<Volume>
    requires ValidLog(p, log) && k <= |log|
  {
    ArrayOf(Replay(p, log[..k], b0), server)
  }

  function OutcomeAt(p: Program, log: seq<nat>, b0: Backend, i: nat): Outcome
    requires ValidLog(p, log) && i < |log|
  {
    Result(p.ops[log[i]], p.reps[log[i]], Replay(p, log[..i], b0))
  }

  /** One step of a history, seen by a name: the volume stays or is taken. */
  predicate StepsTo(before: seq<Volume>, after: seq<Volume>, name: string, taken: set<string>) {
    && (AtMostOne(before, name) ==> AtMostOne(after, name))
    && (NameStays(before, after, name) || (ByName(before, name).Some? && ByName(before, name).value.id in taken))
  }

  lemma {:induction false} ChainKeepsName(arrays: seq<seq<Volume>>, name: string, taken: set<string>, i: nat, k: nat)
    requires i <= k < |arrays| && AtMostOne(arrays[0], name)
    requires forall m :: 0 <= m < |arrays| - 1 ==> StepsTo(arrays[m], arrays[m + 1], name, taken)
    ensures AtMostOne(arrays[i], name) && AtMostOne(arrays[k], name)
    ensures ByName(arrays[i], name).Some? && ByName(arrays[i], name).value.id !in taken ==>
              Continues(ByName(arrays[i], name), ByName(arrays[k], name))
    decreases k
  {
    if i < k {
      ChainKeepsName(arrays, name, taken, i, k - 1);
      assert StepsTo(arrays[k - 1], arrays[k], name, taken);
    } else if i > 0 {
      ChainKeepsName(arrays, name, taken, i - 1, i - 1);
      assert StepsTo(arrays[i - 1], arrays[i], name, taken);
    }
  }

  lemma HistoryStepsTo(p: Program, log: seq<nat>, b0: Backend, server: string, name: string, m: nat)
    requires LegalHistory(p, log, b0) && Tolerated(p, log, server, name) && m < |log|
    ensures StepsTo(ArrayAt(p, log, b0, server, m), ArrayAt(p, log, b0, server, m + 1), name, TakenOn(p.ops, server))
  {
    var op := p.ops[log[m]];
    ReplaySound(p, log, b0, m, m);
    ReplayStep(p, log, b0, m);
    assert LegalAt(p, log, b0, m);
    OpKeepsName(op, p.reps[log[m]], Replay(p, log[..m], b0), RequestedNames(p.ops), server, name);
  }

  /** Over a history there is never a second volume of the name, and the one there is stays unless it is taken. */
  lemma NameContinues(p: Program, log: seq<nat>, b0: Backend, server: string, name: string, i: nat, k: nat)
    requires LegalHistory(p, log, b0) && Tolerated(p, log, server, name) && i <= k <= |log|
    requires AtMostOne(ArrayOf(b0, server), name)
    ensures var was, now := ByName(ArrayAt(p, log, b0, server, i), name), ByName(ArrayAt(p, log, b0, server, k), name);
            && AtMostOne(ArrayAt(p, log, b0, server, i), name) && AtMostOne(ArrayAt(p, log, b0, server, k), name)
            && (was.Some? && was.value.id !in TakenOn(p.ops, server) ==> Continues(was, now))
  {
    var arrays := seq(|log| + 1, m requires 0 <= m <= |log| => ArrayAt(p, log, b0, server, m));
    forall m | 0 <= m < |log| ensures StepsTo(arrays[m], arrays[m + 1], name, TakenOn(p.ops, server)) {
      HistoryStepsTo(p, log, b0, server, name, m);
    }
    assert arrays[0] == ArrayOf(b0, server);
    ChainKeepsName(arrays, name, TakenOn(p.ops, server), i, k);
  }

  lemma MemberUsed(vs: seq<Volume>, b: Backend, server: string, v: Volume)
    requires Sound(b) && vs == ArrayOf(b, server) && v in vs
    ensures v.id in b.used
  {
    var k :| 0 <= k < |vs| && vs[k] == v;
  }

  /** What a success at position i says about the name before and after it. */
  lemma SuccessAt(p: Program, log: seq<nat>, b0: Backend, server: string, name: string, i: nat, v: Volume)
    requires LegalHistory(p, log, b0) && i < |log| && Requests(p.ops[log[i]], server, name) && !Blank(name)
    requires AtMostOne(ArrayAt(p, log, b0, server, i), name) && OutcomeAt(p, log, b0, i) == Succeeded(Some(v))
    ensures var was, now := ByName(ArrayAt(p, log, b0, server, i), name),
            ByName(ArrayAt(p, log, b0, server, i + 1), name);
            && Settled(p.ops[log[i]].req, was, now, v) && Continues(was, now)
            && v in ArrayAt(p, log, b0, server, i + 1) && v.id in Replay(p, log[..i + 1], b0).used
            && (was.None? ==> v.id !in Replay(p, log[..i], b0).used)
  {
    var op, r, b := p.ops[log[i]], p.reps[log[i]], Replay(p, log[..i], b0);
    ReplaySound(p, log, b0, i, i + 1);
    ReplayStep(p, log, b0, i);
    assert LegalAt(p, log, b0, i);
    EnsureOnce(op, r, b, RequestedNames(p.ops));
    var v' := EnsureResult(op, r, b, RequestedNames(p.ops));
    MemberUsed(ArrayOf(Effect(op, r, b), server), Effect(op, r, b), server, v);
  }

  /** The same disk seen again under the name it was created for has that name. */
  lemma NamedSame(p: Program, log: seq<nat>, b0: Backend, server: string, name: string, i: nat, j: nat, v: Volume)
    requires LegalHistory(p, log, b0) && Tolerated(p, log, server, name) && i <= j <= |log|
    requires Listed(p, log, b0, i, server, v) && v.id !in RenamedOn(p.ops, server)
    ensures var now := ByName(ArrayAt(p, log, b0, server, j), name);
            now.Some? && now.value.id == v.id ==> v.name == name
  {
    var vs := ArrayAt(p, log, b0, server, j);
    ByNameFound(vs, name);
    if ByName(vs, name).Some? {
      var k :| 0 <= k < |vs| && vs[k] == ByName(vs, name).value && vs[k].name == name;
      NameKept(p, log, b0, i, j, server, v, vs[k]);
    }
  }

  /**
   A success of a request for a name is remembered exactly if its disk has that
   name: at any later point, whatever else ran and unless the disk was taken, the
   volume of the name is that disk, not smaller than asked for.
   */
  lemma RepeatedEnsure(p: Program, log: seq<nat>, b0: Backend, server: string, name: string, j: nat, i: nat, v: Volume)
    requires LegalHistory(p, log, b0) && Tolerated(p, log, server, name) && j < i <= |log|
    requires AtMostOne(ArrayOf(b0, server), name)
    requires Requests(p.ops[log[j]], server, name) && OutcomeAt(p, log, b0, j) == Succeeded(Some(v))
    requires v.id !in TakenOn(p.ops, server)
    ensures var now := ByName(ArrayAt(p, log, b0, server, i), name);
            && AtMostOne(ArrayAt(p, log, b0, server, i), name)
            && (v.name == name <==> now.Some? && now.value.id == v.id)
            && (v.name == name ==> now.value.sizeGiB >= p.ops[log[j]].req.sizeGiB)
  {
    NameContinues(p, log, b0, server, name, j, i);
    NameContinues(p, log, b0, server, name, j + 1, i);
    SuccessAt(p, log, b0, server, name, j, v);
    NamedSame(p, log, b0, server, name, j + 1, i, v);
  }

  /**
   A success on an array that still has the first disk under the name returns
   that disk; else it returns a fresh one or another.
   */
  lemma SettledAgree(req: ResizeRequest, was: Option<Volume>, now: Option<Volume>, used: set<string>, v: Volume,
                     w: Volume)
    requires Settled(req, was, now, w) && (was.Some? ==> Continues(was, now))
    requires v.id in used && (was.None? ==> w.id !in used)
    requires v.name == req.name <==> was.Some? && was.value.id == v.id
    ensures v.id == w.id <==> v.name == req.name
  {
  }

  /**
   Two successful requests for one name, the disk of the first not taken: they
   return one disk exactly if the backend kept the name of the first.
   */
  lemma RetriesAgree(p: Program, log: seq<nat>, b0: Backend, server: string, name: string, i: nat, j: nat, v: Volume,
                     w: Volume)
    requires LegalHistory(p, log, b0) && Tolerated(p, log, server, name) && i < j < |log|
    requires AtMostOne(ArrayOf(b0, server), name)
    requires Requests(p.ops[log[i]], server, name) && OutcomeAt(p, log, b0, i) == Succeeded(Some(v))
    requires Requests(p.ops[log[j]], server, name) && OutcomeAt(p, log, b0, j) == Succeeded(Some(w))
    requires v.id !in TakenOn(p.ops, server)
    ensures v.id == w.id <==> v.name == name
  {
    RepeatedEnsure(p, log, b0, server, name, i, j, v);
    NameContinues(p, log, b0, server, name, i, j);
    SuccessAt(p, log, b0, server, name, i, v);
    SuccessAt(p, log, b0, server, name, j, w);
    ReplaySound(p, log, b0, i + 1, j);
    SettledAgree(p.ops[log[j]].req, ByName(ArrayAt(p, log, b0, server, j), name),
                 ByName(ArrayAt(p, log, b0, server, j + 1), name),
                 Replay(p, log[..j], b0).used, v, w);
  }

  // ------------------------------------------------------- nothing but retries

  /** Every operation requests this name on this server, and every one succeeds. */
  predicate Retries(p: Program, log: seq<nat>, b0: Backend, server: string, name: string, results: seq<Volume>) {
    && LegalHistory(p, log, b0) && !Blank(name) && log != []
    && (forall t :: 0 <= t < |p.ops| ==> Requests(p.ops[t], server, name))
    && |results| == |log|
    && forall i :: 0 <= i < |log| ==> OutcomeAt(p, log, b0, i) == Succeeded(Some(results[i]))
  }

  lemma RetriesTolerated(p: Program, log: seq<nat>, b0: Backend, server: string, name: string, results: seq<Volume>)
    requires Retries(p, log, b0, server, name, results)
    ensures Tolerated(p, log, server, name) && TakenOn(p.ops, server) == {}
  {
    assert p.ops[log[0]].req.name in RequestedNames(p.ops);
  }

  /** The largest size among the first k requests and the volume there was to begin with. */
  function Largest(reqs: seq<ResizeRequest>, initial: Option<Volume>, k: nat): int
    requires k <= |reqs|
  {
    if k == 0 then (if initial.Some? then initial.value.sizeGiB else 0)
    else if k == 1 && initial.None? then reqs[0].sizeGiB
    else Max(Largest(reqs, initial, k - 1), reqs[k - 1].sizeGiB)
  }

  /** One successful retry: where the name was absent, one disk more. */
  predicate RetryStep(req: ResizeRequest, before: seq<Volume>, after: seq<Volume>, v: Volume) {
    AtMostOne(before, req.name) ==>
      && AtMostOne(after, req.name)
      && Settled(req, ByName(before, req.name), ByName(after, req.name), v)
      && |after| == |before| + (if ByName(before, req.name).None? then 1 else 0)
  }

  /** A chain of retries over the arrays between them. */
  predicate RetryChain(reqs: seq<ResizeRequest>, arrays: seq<seq<Volume>>, results: seq<Volume>, name: string) {
    && |reqs| == |results| && |arrays| == |results| + 1 && AtMostOne(arrays[0], name)
    && forall m :: 0 <= m < |results| ==>
         reqs[m].name == name && RetryStep(reqs[m], arrays[m], arrays[m + 1], results[m])
  }

  lemma {:induction false} ChainSingle(reqs: seq<ResizeRequest>, arrays: seq<seq<Volume>>, results: seq<Volume>,
                                       name: string, k: nat)
    requires RetryChain(reqs, arrays, results, name) && k <= |results|
    ensures AtMostOne(arrays[k], name)
    ensures |arrays[0]| <= |arrays[k]|
    ensures k >= 2 && ByName(arrays[1], name).None? ==> |arrays[k]| >= |arrays[0]| + 2
  {
    if k > 0 {
      ChainSingle(reqs, arrays, results, name, k - 1);
      assert RetryStep(reqs[k - 1], arrays[k - 1], arrays[k], results[k - 1]);
      assert RetryStep(reqs[0], arrays[0], arrays[1], results[0]);
    }
  }

  /** Once the name is there, no retry adds a disk, and the size is the largest asked for. */
  lemma {:induction false} ChainKept(reqs: seq<ResizeRequest>, arrays: seq<seq<Volume>>, results: seq<Volume>,
                                     name: string, k: nat)
    requires RetryChain(reqs, arrays, results, name) && 1 <= k <= |results| && results[0].name == name
    ensures ByName(arrays[k], name).Some? && |arrays[k]| == |arrays[1]|
    ensures ByName(arrays[k], name).value.sizeGiB == Largest(reqs, ByName(arrays[0], name), k)
  {
    ChainSingle(reqs, arrays, results, name, k - 1);
    assert RetryStep(reqs[k - 1], arrays[k - 1], arrays[k], results[k - 1]);
    if k > 1 {
      ChainKept(reqs, arrays, results, name, k - 1);
    }
  }

  /** While the backend renames, every retry adds one more disk. */
  lemma {:induction false} ChainRenamed(reqs: seq<ResizeRequest>, arrays: seq<seq<Volume>>, results: seq<Volume>,
                                        name: string, k: nat)
    requires RetryChain(reqs, arrays, results, name) && k <= |results| && ByName(arrays[0], name).None?
    requires forall j :: 0 <= j < k ==> results[j].name != name
    ensures ByName(arrays[k], name).None? && |arrays[k]| == |arrays[0]| + k
  {
    if k > 0 {
      ChainSingle(reqs, arrays, results, name, k - 1);
      ChainRenamed(reqs, arrays, results, name, k - 1);
      assert RetryStep(reqs[k - 1], arrays[k - 1], arrays[k], results[k - 1]);
    }
  }

  lemma SuccessLength(op: Op, r: Replies, b: Backend, requested: set<string>)
    requires op.Ensure? && Sound(b) && Legal(op, r, b, requested) && Result(op, r, b).Succeeded?
    ensures var before := ArrayOf(b, op.server);
            |ArrayOf(Effect(op, r, b), op.server)| == |before| + (if ByName(before, op.req.name).None? then 1 else 0)
  {
    var before := ArrayOf(b, op.server);
    if WritesArray(op, r, b) && ByName(before, op.req.name).None? {
      CreateWrite(op.req, before, r.put.stored, b.used, requested);
    } else if WritesArray(op, r, b) {
      ByNameFound(before, op.req.name);
      var k: nat :| k < |before| && before[k] == ByName(before, op.req.name).value && before[k].name == op.req.name;
      GrowWrite(op.req, before, r.put.stored, b.used, requested, k);
    }
  }

  /** A name with spaces around it is never found again: every successful request for it adds a disk. */
  lemma PaddedNameNeverFound(op: Op, r: Replies, b: Backend, requested: set<string>)
    requires op.Ensure? && Sound(b) && Legal(op, r, b, requested) && Result(op, r, b).Succeeded?
    requires !Trimmed(op.req.name)
    ensures |ArrayOf(Effect(op, r, b), op.server)| == |ArrayOf(b, op.server)| + 1
  {
    ByNameFound(ArrayOf(b, op.server), op.req.name);
    SuccessLength(op, r, b, requested);
  }

  lemma HistoryRetryStep(p: Program, log: seq<nat>, b0: Backend, server: string, name: string, results: seq<Volume>,
                         m: nat)
    requires Retries(p, log, b0, server, name, results) && m < |log|
    ensures RetryStep(p.ops[log[m]].req, ArrayAt(p, log, b0, server, m), ArrayAt(p, log, b0, server, m + 1), results[m])
  {
    var op, r, b := p.ops[log[m]], p.reps[log[m]], Replay(p, log[..m], b0);
    ReplaySound(p, log, b0, m, m);
    ReplayStep(p, log, b0, m);
    assert LegalAt(p, log, b0, m);
    assert OutcomeAt(p, log, b0, m) == Succeeded(Some(results[m]));
    SuccessLength(op, r, b, RequestedNames(p.ops));
    if AtMostOne(ArrayOf(b, server), name) {
      EnsureOnce(op, r, b, RequestedNames(p.ops));
    }
  }

  function RequestsOf(p: Program, log: seq<nat>): (reqs: seq<ResizeRequest>)
    requires ValidLog(p, log) && forall t :: 0 <= t < |p.ops| ==> p.ops[t].Ensure?
    ensures |reqs| == |log| && forall m :: 0 <= m < |log| ==> reqs[m] == p.ops[log[m]].req
  {
    seq(|log|, m requires 0 <= m < |log| => p.ops[log[m]].req)
  }

  function ArraysOf(p: Program, log: seq<nat>, b0: Backend, server: string): (arrays: seq<seq<Volume>>)
    requires ValidLog(p, log)
    ensures |arrays| == |log| + 1 && forall m :: 0 <= m <= |log| ==> arrays[m] == ArrayAt(p, log, b0, server, m)
  {
    seq(|log| + 1, m requires 0 <= m <= |log| => ArrayAt(p, log, b0, server, m))
  }

  lemma RetriesChain(p: Program, log: seq<nat>, b0: Backend, server: string, name: string, results: seq<Volume>)
    requires Retries(p, log, b0, server, name, results) && AtMostOne(ArrayOf(b0, server), name)
    ensures RetryChain(RequestsOf(p, log), ArraysOf(p, log, b0, server), results, name)
  {
    var arrays := ArraysOf(p, log, b0, server);
    assert log[..0] == [];
    forall m | 0 <= m < |log| ensures RetryStep(RequestsOf(p, log)[m], arrays[m], arrays[m + 1], results[m]) {
      HistoryRetryStep(p, log, b0, server, name, results, m);
    }
  }

  /**
   Successful retries leave one volume of the name, of the largest size, and all
   return its id, exactly if the first returned disk has the name: there was one
   before, or the backend kept the requested name.
   */
  lemma EnsureIdempotent(p: Program, log: seq<nat>, b0: Backend, server: string, name: string, results: seq<Volume>)
    requires Retries(p, log, b0, server, name, results) && AtMostOne(ArrayOf(b0, server), name)
    ensures var now := ByName(ArrayAt(p, log, b0, server, |log|), name);
            && AtMostOne(ArrayAt(p, log, b0, server, |log|), name)
            && (results[0].name == name <==> now.Some? && forall j :: 0 <= j < |log| ==> results[j].id == now.value.id)
            && (results[0].name == name ==>
                  now.value.sizeGiB == Largest(RequestsOf(p, log), ByName(ArrayOf(b0, server), name), |log|))
  {
    var n := |log|;
    RetriesTolerated(p, log, b0, server, name, results);
    RetriesChain(p, log, b0, server, name, results);
    NameContinues(p, log, b0, server, name, n, n);
    RepeatedEnsure(p, log, b0, server, name, 0, n, results[0]);
    if results[0].name == name {
      assert log[..0] == [];
      ChainKept(RequestsOf(p, log), ArraysOf(p, log, b0, server), results, name, n);
      forall j | 0 < j < n ensures results[j].id == results[0].id {
        RetriesAgree(p, log, b0, server, name, 0, j, results[0], results[j]);
      }
    }
  }

  lemma AbsentIsAtMostOne(vs: seq<Volume>, name: string)
    requires ByName(vs, name).None?
    ensures AtMostOne(vs, name)
  {
    ByNameFound(vs, name);
  }

  /** How many disks a chain of retries of an absent name adds. */
  lemma ChainAdds(reqs: seq<ResizeRequest>, arrays: seq<seq<Volume>>, results: seq<Volume>, name: string)
    requires RetryChain(reqs, arrays, results, name) && results != [] && ByName(arrays[0], name).None?
    ensures var n := |results|; |arrays[n]| == |arrays[0]| + 1 <==> n == 1 || results[0].name == name
  {
    ChainSingle(reqs, arrays, results, name, |results|);
    assert RetryStep(reqs[0], arrays[0], arrays[1], results[0]);
    if results[0].name == name {
      ChainKept(reqs, arrays, results, name, |results|);
    }
  }

  /** While the backend renames, every try returns a disk that no later one returns. */
  lemma RenamedApart(p: Program, log: seq<nat>, b0: Backend, server: string, name: string, results: seq<Volume>,
                     i: nat, j: nat)
    requires Retries(p, log, b0, server, name, results) && AtMostOne(ArrayOf(b0, server), name)
    requires i < j < |log| && results[i].name != name
    ensures results[i].id != results[j].id
  {
    RetriesTolerated(p, log, b0, server, name, results);
    RetriesAgree(p, log, b0, server, name, i, j, results[i], results[j]);
  }

  /**
   How many disks successful retries of an absent name add: one exactly if there
   was one try or the backend kept the name at the first, and one for each try
   as long as the backend renames, each with an id of its own.
   */
  lemma RetriesAdd(p: Program, log: seq<nat>, b0: Backend, server: string, name: string, results: seq<Volume>, k: nat)
    requires Retries(p, log, b0, server, name, results) && ByName(ArrayOf(b0, server), name).None?
    requires k <= |log| && forall j :: 0 <= j < k ==> results[j].name != name
    ensures |ArrayAt(p, log, b0, server, |log|)| == |ArrayOf(b0, server)| + 1 <==> |log| == 1 || results[0].name == name
    ensures |ArrayAt(p, log, b0, server, k)| == |ArrayOf(b0, server)| + k
    ensures forall i, j :: 0 <= i < k && i < j < |log| ==> results[i].id != results[j].id
  {
    AbsentIsAtMostOne(ArrayOf(b0, server), name);
    RetriesChain(p, log, b0, server, name, results);
    assert log[..0] == [];
    var reqs, arrays := RequestsOf(p, log), ArraysOf(p, log, b0, server);
    ChainRenamed(reqs, arrays, results, name, k);
    ChainAdds(reqs, arrays, results, name);
    forall i, j | 0 <= i < k && i < j < |log| ensures results[i].id != results[j].id {
      RenamedApart(p, log, b0, server, name, results, i, j);
    }
  }

  // --------------------------------------------------------------- concurrency

  /**
   Concurrent retries, overlapping creations, expansions and deletions of any
   other volumes: two successes return one disk exactly if the one that took
   effect first got a disk of the requested name.
   */
  lemma {:induction false} ConcurrentRetriesAgree(ops: seq<Op>, b0: Backend, run: seq<Label>, server: string,
                                                  name: string, t: nat,
                               u: nat, v: Volume, w: Volume)
    requires Sound(b0) && IsRun(ops, Initial(ops, b0), run) && t < |ops| && u < |ops|
    requires var s := Reached(ops, b0, run); Tolerated(Carried(ops, s), s.log, server, name)
    requires AtMostOne(ArrayOf(b0, server), name)
    requires Requests(ops[t], server, name) && Requests(ops[u], server, name)
    requires Reached(ops, b0, run).threads[t].pc == Finished(Succeeded(Some(v)))
    requires Reached(ops, b0, run).threads[u].pc == Finished(Succeeded(Some(w)))
    requires Reached(ops, b0, run).threads[t].at < Reached(ops, b0, run).threads[u].at
    requires v.id !in TakenOn(ops, server)
    ensures v.id == w.id <==> v.name == name
    ensures AtMostOne(ArrayOf(Reached(ops, b0, run).backend, server), name)
  {
    var s := Reached(ops, b0, run);
    var p := Carried(ops, s);
    FinishedEntry(ops, b0, run, t, v);
    FinishedEntry(ops, b0, run, u, w);
    assert s.log[..|s.log|] == s.log;
    NameContinues(p, s.log, b0, server, name, |s.log|, |s.log|);
    RetriesAgree(p, s.log, b0, server, name, s.threads[t].at, s.threads[u].at, v, w);
  }
}
