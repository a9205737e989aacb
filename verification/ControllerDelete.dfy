/**
 The controller's DeleteVolume: the handle may name a server the volume has
 left, so the volume is first searched on the candidate servers.
 */
module ControllerDelete {
  import opened Text
  import opened Volumes
  import opened VolumeHandle
  import opened Candidates
  import opened ResizeOps
  import opened ResizeClient

  /** Servers the resolver knows, when it can be asked, and then the extra ones. */
  function CandidateServerIDs(resolved: Option<seq<string>>, extra: seq<string>): seq<string> {
    Unique((if resolved.Some? then resolved.value else []) + extra)
  }

  /** Where the delete goes: to the holder that was found, else to the server of the handle. */
  function DeleteTarget(b: Backend, down: set<string>, resolved: Option<seq<string>>, ref: VolumeRef): VolumeRef {
    match Find(Answering(b.arrays, down), ref.volumeId, CandidateServerIDs(resolved, [ref.serverId]))
    case Found(server, _) => VolumeRef(server, Trim(ref.volumeId))
    case SearchFailed(_) => ref
  }

  function DeleteOp(b: Backend, down: set<string>, resolved: Option<seq<string>>, ref: VolumeRef): Op {
    var target := DeleteTarget(b, down, resolved, ref);
    Delete(target.serverId, target.volumeId)
  }

  datatype Response = InvalidHandle | Answered(outcome: Outcome)

  /** The search sees the arrays of the call, the delete those of the moment the target's mutex is free. */
  method DeleteVolume(client: Client, handle: string, resolved: Option<seq<string>>, down: set<string>,
                      turns: seq<Moment>, r: Replies, ghost requested: set<string>)
    returns (out: Response)
    requires client.Valid()
    requires Decode(handle).Some? ==>
               var op := DeleteOp(client.backend, down, resolved, Decode(handle).value);
               LetsIn(op, client.Now(), turns) && Legal(op, r, Served(op, client.Now(), turns).backend, requested)
    modifies client
    ensures client.Valid()
    ensures Decode(handle).None? ==> out == InvalidHandle && client.Now() == old(client.Now())
    ensures Decode(handle).Some? ==>
              var op := DeleteOp(old(client.backend), down, resolved, Decode(handle).value);
              var at := old(Served(op, client.Now(), turns));
              client.Now() == Left(op, r, at) && out == Answered(Result(op, r, at.backend))
  {
    var ref := Decode(handle);
    if ref.None? {
      return InvalidHandle;
    }
    var current := ref.value;
    var candidates := UniqueNonEmpty((if resolved.Some? then resolved.value else []) + [current.serverId]);
    if |candidates| > 0 {
      var found := FindVolume(Answering(client.backend.arrays, down), current.volumeId, candidates);
      if found.Found? {
        current := VolumeRef(found.server, Trim(current.volumeId));
      }
    } else {
      assert Unique(candidates) == [];
    }
    var outcome := client.DeleteVolume(current.serverId, current.volumeId, turns, r, requested);
    out := Answered(outcome);
  }

  /** The volume is on no candidate server. */
  predicate OnNone(b: Backend, id: string, candidates: seq<string>) {
    forall c :: c in candidates ==> c in b.arrays && ByID(b.arrays[c], id).None?
  }

  predicate AllAnswer(b: Backend, down: set<string>, candidates: seq<string>) {
    forall c :: c in candidates ==> c in b.arrays && c !in down
  }

  /** A reference as a handle decodes to. */
  predicate Tidy(ref: VolumeRef) {
    ref.serverId != "" && Trimmed(ref.serverId) && ref.volumeId != "" && Trimmed(ref.volumeId)
  }

  lemma DecodedIsTidy(handle: string)
    requires Decode(handle).Some?
    ensures Tidy(Decode(handle).value)
  {
  }

  lemma CandidatesIncludeHandle(resolved: Option<seq<string>>, ref: VolumeRef)
    requires Tidy(ref)
    ensures ref.serverId in CandidateServerIDs(resolved, [ref.serverId])
    ensures Unique(CandidateServerIDs(resolved, [ref.serverId])) == CandidateServerIDs(resolved, [ref.serverId])
    ensures forall c :: c in CandidateServerIDs(resolved, [ref.serverId]) ==> c != "" && Trimmed(c)
  {
    var values := (if resolved.Some? then resolved.value else []) + [ref.serverId];
    forall c | c in Unique(values) ensures c != "" && Trimmed(c) {
      UniqueElements(values);
      var k :| 0 <= k < |values| && Trim(values[k]) == c;
    }
    UniqueElements(values);
    UniqueIdempotent(values);
    assert Trim(values[|values| - 1]) == ref.serverId;
  }

  /** The delete goes to a holder whenever there is one. */
  lemma TargetHolds(b: Backend, down: set<string>, resolved: Option<seq<string>>, ref: VolumeRef)
    requires Tidy(ref)
    requires AllAnswer(b, down, CandidateServerIDs(resolved, [ref.serverId]))
    ensures var target := DeleteTarget(b, down, resolved, ref);
            var candidates := CandidateServerIDs(resolved, [ref.serverId]);
            && target.volumeId == ref.volumeId && Tidy(target)
            && target.serverId in candidates && target.serverId in b.arrays
            && (ByID(b.arrays[target.serverId], ref.volumeId).None? ==> OnNone(b, ref.volumeId, candidates))
  {
    var candidates := CandidateServerIDs(resolved, [ref.serverId]);
    CandidatesIncludeHandle(resolved, ref);
    var servers := Answering(b.arrays, down);
    SearchExactly(servers, ref.volumeId, candidates);
    assert AllReadable(servers, candidates);
    if !Find(servers, ref.volumeId, candidates).Found? {
      forall c | c in candidates ensures ByID(b.arrays[c], ref.volumeId).None? {
        assert !Holds(servers, c, ref.volumeId);
      }
    }
  }

  /** A delete that reports success has removed the volume from its server. */
  lemma DeleteRemoves(op: Op, r: Replies, b: Backend, requested: set<string>)
    requires op.Delete? && Sound(b) && op.server in b.arrays && Legal(op, r, b, requested)
             && Result(op, r, b).Succeeded?
    ensures ByID(ArrayOf(Effect(op, r, b), op.server), op.volumeId).None?
  {
    var before := ArrayOf(b, op.server);
    if ByID(before, op.volumeId).Some? {
      ByIDFound(before, op.volumeId);
      var k: nat :| k < |before| && before[k] == ByID(before, op.volumeId).value && before[k].id == op.volumeId;
      var after := r.put.stored;
      RemoveWrite(op.volumeId, before, after, b.used, requested, k);
      ByIDFound(after, op.volumeId);
      forall j | 0 <= j < |after| ensures after[j].id != op.volumeId {
        var i := if j < k then j else j + 1;
        assert SameEntry(before[i], after[j]);
      }
    }
  }

  /** Clearing a holder clears all candidates exactly if it was the only one. */
  lemma ClearsExactly(b: Backend, b': Backend, id: string, candidates: seq<string>, server: string)
    requires b'.arrays.Keys == b.arrays.Keys && forall s :: s in b.arrays && s != server ==> b'.arrays[s] == b.arrays[s]
    requires server in candidates && forall c :: c in candidates ==> c in b.arrays
    requires ByID(b'.arrays[server], id).None?
    requires ByID(b.arrays[server], id).None? ==> OnNone(b, id, candidates)
    ensures OnNone(b', id, candidates) <==> OnOneAtMost(b.arrays, id, candidates)
  {
    if OnNone(b', id, candidates) {
      forall c, d | c in candidates && d in candidates && Holds(b.arrays, c, id) && Holds(b.arrays, d, id)
        ensures c == d
      {
        assert c == server && d == server;
      }
    }
    if OnOneAtMost(b.arrays, id, candidates) {
      forall c | c in candidates ensures ByID(b'.arrays[c], id).None? {
        assert Holds(b.arrays, c, id) && Holds(b.arrays, server, id) ==> c == server;
      }
    }
  }

  /**
   A successful delete leaves the volume on no candidate exactly when it was on
   at most one of them, however stale the server in the handle.
   */
  lemma DeleteAfterMove(b: Backend, down: set<string>, resolved: Option<seq<string>>, ref: VolumeRef, r: Replies,
                        requested: set<string>)
    requires Sound(b) && Tidy(ref) && AllAnswer(b, down, CandidateServerIDs(resolved, [ref.serverId]))
    requires Legal(DeleteOp(b, down, resolved, ref), r, b, requested)
    requires Result(DeleteOp(b, down, resolved, ref), r, b).Succeeded?
    ensures OnNone(Effect(DeleteOp(b, down, resolved, ref), r, b), ref.volumeId,
            CandidateServerIDs(resolved, [ref.serverId]))
       <==> OnOneAtMost(b.arrays, ref.volumeId, CandidateServerIDs(resolved, [ref.serverId]))
  {
    var op := DeleteOp(b, down, resolved, ref);
    TargetHolds(b, down, resolved, ref);
    EffectSound(op, r, b, requested);
    DeleteRemoves(op, r, b, requested);
    ClearsExactly(b, Effect(op, r, b), ref.volumeId, CandidateServerIDs(resolved, [ref.serverId]), op.server);
  }

  lemma DeleteFrame(op: Op, r: Replies, b: Backend, requested: set<string>)
    requires op.Delete? && Sound(b) && Legal(op, r, b, requested)
    ensures var b' := Effect(op, r, b);
            && b'.arrays.Keys == b.arrays.Keys
            && (forall s :: s in b.arrays && s != op.server ==> b'.arrays[s] == b.arrays[s])
            && (b' == b || exists k: nat :: RemovedOne(op.volumeId, ArrayOf(b, op.server), ArrayOf(b', op.server), k))
  {
    EffectSound(op, r, b, requested);
    if WritesArray(op, r, b) {
      WriteIsOneEdit(op, r, b, requested);
      var k: nat :| RemovedOne(op.volumeId, ArrayOf(b, op.server), r.put.stored, k);
      assert ArrayOf(Effect(op, r, b), op.server) == r.put.stored;
      assert RemovedOne(op.volumeId, ArrayOf(b, op.server), ArrayOf(Effect(op, r, b), op.server), k);
    }
  }

  /** No other volume is touched: other servers are unchanged, and on this one only the named id may go. */
  lemma DeleteTouchesNothingElse(b: Backend, down: set<string>, resolved: Option<seq<string>>, ref: VolumeRef,
                                 r: Replies, requested: set<string>)
    requires Sound(b) && Legal(DeleteOp(b, down, resolved, ref), r, b, requested)
    ensures var op := DeleteOp(b, down, resolved, ref); var b' := Effect(op, r, b);
            && b'.arrays.Keys == b.arrays.Keys
            && (forall s :: s in b.arrays && s != op.server ==> b'.arrays[s] == b.arrays[s])
            && (b' == b || exists k: nat :: RemovedOne(op.volumeId, ArrayOf(b, op.server), ArrayOf(b', op.server), k))
  {
    DeleteFrame(DeleteOp(b, down, resolved, ref), r, b, requested);
  }

  /** Deleting a volume that is on no candidate succeeds and writes nothing, whatever the write would have answered. */
  lemma RepeatedDelete(b: Backend, down: set<string>, resolved: Option<seq<string>>, ref: VolumeRef, r: Replies)
    requires Tidy(ref) && AllAnswer(b, down, CandidateServerIDs(resolved, [ref.serverId]))
    requires OnNone(b, ref.volumeId, CandidateServerIDs(resolved, [ref.serverId]))
    requires r.getOk
    ensures Result(DeleteOp(b, down, resolved, ref), r, b) == Succeeded(None)
    ensures !WritesArray(DeleteOp(b, down, resolved, ref), r, b) && Effect(DeleteOp(b, down, resolved, ref), r, b) == b
  {
    TargetHolds(b, down, resolved, ref);
  }
}
