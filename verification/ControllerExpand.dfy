/**
 The controller's ControllerExpandVolume: unlike the delete it does not search
 for the volume, but asks for it on the server that the handle names.
 */
module ControllerExpand {
  import opened Text
  import opened Float64
  import opened Wire
  import opened Sizes
  import opened Volumes
  import opened VolumeHandle
  import opened Candidates
  import opened ResizeOps
  import opened Outcomes
  import opened ResizeClient
  import opened ControllerDelete
  import opened ControllerCreate
  import Moves
  import MoveAlone

  datatype ExpandRequest = ExpandRequest(handle: string, capability: Option<Capability>,
    capacity: Option<CapacityRange>)

  datatype ExpandResponse = BadArgument | ExpandFailed(error: Error) | Expanded(capacityBytes: int)

  /** The request to the client, when the arguments are valid. */
  function ExpansionOf(req: ExpandRequest): Option<ResizeRequest> {
    var size := RequestedSizeGiB(req.capacity);
    match Decode(req.handle)
    case None => None
    case Some(ref) =>
      if (req.capability.Some? && !Capable([req.capability.value])) || size.Rejected? then None
      else Some(ResizeRequest("", size.size, map[PARAM_SERVER_ID := ref.serverId], ref.volumeId))
  }

  /** A request that is sent on, of a size of 64 bits. */
  predicate Sendable(req: ExpandRequest) {
    ExpansionOf(req).Some? && req.capacity.Some? && req.capacity.value.requiredBytes < TWO_63
  }

  function ExpandAnswer(outcome: Outcome): ExpandResponse {
    match outcome
    case Failed(error) => ExpandFailed(error)
    case Succeeded(None) => ExpandFailed(LookupExhausted)
    case Succeeded(Some(v)) => Expanded(CapacityBytes(v.sizeGiB))
  }

  method ExpandVolume(client: Client, req: ExpandRequest, turns: seq<Moment>, r: Replies, ghost requested: set<string>)
    returns (out: ExpandResponse)
    requires client.Valid()
    requires ExpansionOf(req).Some? ==>
               var op := ExpandOp(ExpansionOf(req).value);
               LetsIn(op, client.Now(), turns) && Legal(op, r, Served(op, client.Now(), turns).backend, requested)
    requires r.polls != [] ==> !r.polls[0].PollCancelled?
    modifies client
    ensures client.Valid()
    ensures ExpansionOf(req).None? ==> out == BadArgument && client.Now() == old(client.Now())
    ensures ExpansionOf(req).Some? ==>
              var op := ExpandOp(ExpansionOf(req).value);
              var at := old(Served(op, client.Now(), turns));
              client.Now() == Left(op, r, at) && out == ExpandAnswer(Result(op, r, at.backend))
  {
    var ref := Decode(req.handle);
    if ref.None? {
      return BadArgument;
    }
    if req.capability.Some? {
      var fault := ValidateVolumeCapabilities([req.capability.value]);
      if fault.Some? {
        return BadArgument;
      }
    }
    var size := RequestedSizeGiB(req.capacity);
    if size.Rejected? {
      return BadArgument;
    }
    var request := ResizeRequest("", size.size, map[PARAM_SERVER_ID := ref.value.serverId], ref.value.volumeId);
    var outcome := client.ExpandVolume(request, turns, r, requested);
    if outcome.Failed? {
      return ExpandFailed(outcome.error);
    }
    if outcome.volume.None? {
      return ExpandFailed(LookupExhausted);
    }
    return Expanded(CapacityBytes(outcome.volume.value.sizeGiB));
  }

  /**
   A request is sent exactly for a handle that decodes, a capability that is
   usable if given, and an acceptable size.
   */
  lemma ExpansionRejected(req: ExpandRequest)
    ensures ExpansionOf(req).Some? <==>
            && Decode(req.handle).Some? && (req.capability.Some? ==> Capable([req.capability.value]))
            && req.capacity.Some? && Accepts(req.capacity.value.requiredBytes, req.capacity.value.limitBytes)
  {
    RejectedExactly(req.capacity);
  }

  /** It goes to the server and the id of the handle, for the size asked for, and is accepted. */
  lemma ExpansionSent(req: ExpandRequest)
    requires Sendable(req)
    ensures Decode(req.handle).Some?
    ensures var op, ref := ExpandOp(ExpansionOf(req).value), Decode(req.handle).value;
            && op.server == ref.serverId && op.req.volumeId == ref.volumeId && Blank(op.req.name)
            && Gibibytes(op.req.sizeGiB) == RequestedSizeGiB(req.capacity)
            && Accepted(op)
  {
    ExpansionRejected(req);
    AcceptedIsPositive(req.capacity.value.requiredBytes, req.capacity.value.limitBytes);
    DecodedIsTidy(req.handle);
    assert Trimmed("") && Blank("");
  }

  lemma ExpansionFailure(outcome: Outcome)
    ensures ExpandAnswer(outcome).Expanded? <==> outcome.Succeeded? && outcome.volume.Some?
    ensures outcome.Failed? ==> ExpandAnswer(outcome) == ExpandFailed(outcome.error)
  {
  }

  /**
   An expansion that is answered with a capacity has left the volume of the
   handle on the handle's server with exactly that size, the requested one.
   */
  lemma ExpandedExactly(req: ExpandRequest, r: Replies, b: Backend, requested: set<string>)
    requires Sound(b) && Sendable(req) && Legal(ExpandOp(ExpansionOf(req).value), r, b, requested)
    requires ExpandAnswer(Result(ExpandOp(ExpansionOf(req).value), r, b)).Expanded?
    ensures Decode(req.handle).Some?
    ensures var op, ref := ExpandOp(ExpansionOf(req).value), Decode(req.handle).value;
            var held := ByID(ArrayOf(Effect(op, r, b), ref.serverId), ref.volumeId);
            && held.Some? && !held.value.root && Gibibytes(held.value.sizeGiB) == RequestedSizeGiB(req.capacity)
            && ExpandAnswer(Result(op, r, b)) == Expanded(CapacityBytes(held.value.sizeGiB))
  {
    var op := ExpandOp(ExpansionOf(req).value);
    ExpansionSent(req);
    ExpandReturns(op, r, b, requested);
    EffectSound(op, r, b, requested);
    var after := ArrayOf(Effect(op, r, b), op.server);
    var k :| 0 <= k < |after| && after[k] == Result(op, r, b).volume.value;
    ByIDAt(after, k);
  }

  /**
   The volume is looked for on the handle's server alone: an accepted expansion
   that reads its array does not find the volume exactly if it is not there,
   wherever else it is, although a delete with the same handle goes to where it
   is when the candidates answer.
   */
  lemma MovedVolumeNotExpanded(req: ExpandRequest, r: Replies, b: Backend, requested: set<string>, down: set<string>,
                               resolved: Option<seq<string>>, holder: string)
    requires Sound(b) && Sendable(req) && r.getOk
    requires Legal(ExpandOp(ExpansionOf(req).value), r, b, requested)
    ensures Decode(req.handle).Some?
    ensures var ref := Decode(req.handle).value;
            ExpandAnswer(Result(ExpandOp(ExpansionOf(req).value), r, b)) == ExpandFailed(VolumeNotFound)
            <==> ByID(ArrayOf(b, ref.serverId), ref.volumeId).None?
    ensures var ref := Decode(req.handle).value; var candidates := CandidateServerIDs(resolved, [ref.serverId]);
            AllAnswer(b, down, candidates) && holder in candidates && ByID(b.arrays[holder], ref.volumeId).Some? ==>
              var target := DeleteTarget(b, down, resolved, ref);
              target.serverId in b.arrays && ByID(b.arrays[target.serverId], ref.volumeId).Some?
  {
    var op, ref := ExpandOp(ExpansionOf(req).value), Decode(req.handle).value;
    ExpansionSent(req);
    DecodedIsTidy(req.handle);
    ExpandAnswers(op, r, b, requested);
    var before := ArrayOf(b, op.server);
    if NamesNone(op, before) {
      NoID(op, before);
    } else {
      var k: nat :| Names(op, before, k);
      OnlyNamed(op, before, k);
    }
    if AllAnswer(b, down, CandidateServerIDs(resolved, [ref.serverId])) {
      TargetHolds(b, down, resolved, ref);
    }
  }

  /**
   After a volume was moved off the server of its handle, no expansion finds it:
   on the arrays the move left, the answer is that there is no such volume.
   */
  lemma NoExpansionAfterMove(w: Moves.World, move: Moves.Request, down: set<string>, detach: Moves.DetachReply,
                             attach: Moves.AttachReply, polls: seq<PollReply>,
                             req: ExpandRequest, r: Replies, b: Backend, requested: set<string>)
    requires Moves.AllOnePlace(w) && MoveAlone.SameDiskPlaced(w, Trim(move.volumeId), attach)
    requires !attach.AttachRefused? ==> move.target in w.servers && Trimmed(move.volumeId)
    requires var (w', out) := MoveAlone.MoveAlone(w, move, down, detach, attach, polls);
             out.Moved? && b.arrays == w'.servers
    requires Sound(b) && Sendable(req) && r.getOk && Legal(ExpandOp(ExpansionOf(req).value), r, b, requested)
    requires Decode(req.handle).Some? && Decode(req.handle).value.volumeId == Trim(move.volumeId)
    requires Decode(req.handle).value.serverId != move.target
    ensures ExpandAnswer(Result(ExpandOp(ExpansionOf(req).value), r, b)) == ExpandFailed(VolumeNotFound)
  {
    MoveAlone.MoveAloneDisturbs(w, move, down, detach, attach, polls);
    MovedVolumeNotExpanded(req, r, b, requested, {}, None, "");
  }

  /**
   Create, then expand the answered handle: the disk that was created, and no
   other, grows to the size asked for, and the answer is that size.
   */
  lemma CreateThenExpand(created: ResizeRequest, r: Replies, b: Backend, requested: set<string>, v: Volume,
                         req: ExpandRequest, grow: Replies)
    requires CreatedDisk(created, r, b, requested, v) && AnswerOf(created, r, b).Created?
    requires req.handle == AnswerOf(created, r, b).handle && Sendable(req)
    requires ExpansionOf(req).value.sizeGiB > v.sizeGiB
    requires var op, b1 := ExpandOp(ExpansionOf(req).value), Effect(EnsureOp(created), r, b);
             Legal(op, grow, b1, requested) && grow.getOk && grow.put.Applied? && Seen(grow.polls)
    ensures var op, b1 := ExpandOp(ExpansionOf(req).value), Effect(EnsureOp(created), r, b);
            var n := |ArrayOf(b, op.server)|;
            && op.server == EnsureOp(created).server && n < |ArrayOf(b1, op.server)| && ArrayOf(b1, op.server)[n] == v
            && GrewOne(op.req, ArrayOf(b1, op.server), ArrayOf(Effect(op, grow, b1), op.server), n)
            && ExpandAnswer(Result(op, grow, b1)) == Expanded(CapacityBytes(op.req.sizeGiB))
  {
    var op, b1 := ExpandOp(ExpansionOf(req).value), Effect(EnsureOp(created), r, b);
    HandleNamesDisk(created, r, b, requested, v, {}, None);
    ExpansionSent(req);
    CreateAppends(EnsureOp(created), r, b, requested, v);
    EffectSound(EnsureOp(created), r, b, requested);
    ExpandWrites(op, grow, b1, requested, |ArrayOf(b, op.server)|);
  }
}
