/**
 One move that runs alone, from search to confirmation: what it leaves, when it
 strands its volume, and that the step machine does the same.
 */
module MoveAlone {
  import opened Text
  import opened Volumes
  import opened Candidates
  import opened ResizeOps
  import opened Moves

  // ----------------------------------------------------------- what may change

  /** From w to w' only volume id went elsewhere; nothing is lost or doubled, and no root volume moved. */
  ghost predicate Disturbs(w: World, w': World, id: string) {
    && AllOnePlace(w') && Conserves(w, w') && SameButFor(w, w', id)
    && forall s, x :: s in w.servers && At(w, s, x).Some? && At(w, s, x).value.root ==> At(w', s, x) == At(w, s, x)
  }

  lemma DisturbsNothing(w: World, id: string)
    requires AllOnePlace(w)
    ensures Disturbs(w, w, id)
  {
  }

  lemma PlacesKept(w: World, w': World, id: string)
    requires AllOnePlace(w) && OnePlace(w', id) && forall x :: x != id ==> SamePlace(w, w', x)
    requires forall disk :: Exists(w, id, disk) <==> Exists(w', id, disk)
    ensures AllOnePlace(w') && Conserves(w, w')
  {
    forall x ensures OnePlace(w', x) {
      if x != id {
        assert SamePlace(w, w', x) && OnePlace(w, x);
      }
    }
    forall x, disk ensures Exists(w, x, disk) <==> Exists(w', x, disk) {
      if x != id {
        SamePlaceKeeps(w, w', x);
      }
    }
  }

  lemma DetachDisturbs(w: World, server: string, id: string)
    requires AllOnePlace(w) && Trimmed(id) && At(w, server, id).Some? && !At(w, server, id).value.root
    ensures Disturbs(w, Detached(w, server, id), id)
    ensures forall s :: s in w.servers ==> At(Detached(w, server, id), s, id).None?
  {
    var w' := Detached(w, server, id);
    assert OnePlace(w, id);
    DetachPlaces(w, server, id);
    PlacesKept(w, w', id);
    forall s, x | s in w.servers && At(w, s, x).Some? && At(w, s, x).value.root ensures At(w', s, x) == At(w, s, x) {
      assert x != id ==> SamePlace(w, w', x);
    }
  }

  lemma AttachDisturbs(before: World, w: World, server: string, id: string, placed: Volume)
    requires Disturbs(before, w, id) && server in w.servers && id in w.pool && Disk(placed) == Disk(w.pool[id])
    requires forall s :: s in before.servers && At(before, s, id).Some? ==> !At(before, s, id).value.root
    ensures Disturbs(before, Attached(w, server, id, placed), id)
  {
    var w' := Attached(w, server, id, placed);
    assert OnePlace(w, id);
    AttachPlaces(w, server, id, placed);
    PlacesKept(w, w', id);
    forall s, x | s in before.servers && At(before, s, x).Some? && At(before, s, x).value.root
      ensures At(w', s, x) == At(before, s, x)
    {
      assert x != id ==> SamePlace(w, w', x);
    }
  }

  // ---------------------------------------------------------- the move itself

  function PollMove(w: World, r: Request, polls: seq<PollReply>, attempt: nat): MoveOutcome
    decreases LOOKUP_ATTEMPTS - attempt
  {
    if attempt >= LOOKUP_ATTEMPTS then MoveFailed(NotSeen)
    else if PollAt(polls, attempt).PollCancelled? then MoveFailed(MoveError.Cancelled)
    else if PollAt(polls, attempt).PollSeen?
      && At(w, r.target, r.volumeId).Some? then Moved(At(w, r.target, r.volumeId).value)
    else PollMove(w, r, polls, attempt + 1)
  }

  /** World and outcome after a move that runs alone and found the volume on `server`. */
  function MoveFrom(w: World, r: Request, server: string, detach: DetachReply, attach: AttachReply,
                    polls: seq<PollReply>): (World, MoveOutcome)
    requires At(w, server, Trim(r.volumeId)).Some?
    requires !attach.AttachRefused? ==> r.target in w.servers && Trimmed(r.volumeId)
  {
    var w1 := if detach.DetachRefused? then w else Detached(w, server, Trim(r.volumeId));
    if !detach.DetachOk? then (w1, MoveFailed(DetachFailed))
    else
      var w2 := if attach.AttachRefused? then w1 else Attached(w1, r.target, r.volumeId, attach.placed);
      (w2, if attach.AttachOk? then PollMove(w2, r, polls, 0) else MoveFailed(AttachFailed))
  }

  /** World and outcome after a move that runs alone, from what its search gave. */
  function MoveFound(w: World, r: Request, found: SearchResult, detach: DetachReply, attach: AttachReply,
                     polls: seq<PollReply>): (World, MoveOutcome)
    requires found.Found? ==> At(w, found.server, Trim(r.volumeId)) == Some(found.volume)
    requires !attach.AttachRefused? ==> r.target in w.servers && Trimmed(r.volumeId)
  {
    match found
    case SearchFailed(e) => (w, MoveFailed(NotFound(e)))
    case Found(server, v) =>
      if server == r.target then (w, Moved(v))
      else if v.root then (w, MoveFailed(MoveError.RootRefused))
      else MoveFrom(w, r, server, detach, attach, polls)
  }

  /** A search that found something found a volume there. */
  lemma FoundThere(w: World, r: Request, down: set<string>)
    ensures var found := Find(Answering(w.servers, down), r.volumeId, r.candidates + [r.source, r.target]);
            found.Found? ==> At(w, found.server, Trim(r.volumeId)) == Some(found.volume)
  {
    SearchExactly(Answering(w.servers, down), Trim(r.volumeId), SearchList(r));
  }

  /** World and outcome after a move that runs alone. */
  function MoveAlone(w: World, r: Request, down: set<string>, detach: DetachReply, attach: AttachReply,
                     polls: seq<PollReply>): (World, MoveOutcome)
    requires !attach.AttachRefused? ==> r.target in w.servers && Trimmed(r.volumeId)
  {
    if Blank(r.target) then (w, MoveFailed(TargetMissing))
    else
      FoundThere(w, r, down);
      MoveFound(w, r, Find(Answering(w.servers, down), r.volumeId, r.candidates + [r.source, r.target]), detach, attach,
        polls)
  }

  /** The wait ends with the volume if some reply shows the target before a cancellation. */
  lemma {:induction false} PollSees(w: World, r: Request, polls: seq<PollReply>, attempt: nat, k: nat)
    requires attempt <= k < LOOKUP_ATTEMPTS && PollAt(polls, k).PollSeen? && At(w, r.target, r.volumeId).Some?
    requires forall j :: attempt <= j < k ==> !PollAt(polls, j).PollCancelled?
    ensures PollMove(w, r, polls, attempt) == Moved(At(w, r.target, r.volumeId).value)
    decreases k - attempt
  {
    if attempt < k && !PollAt(polls, attempt).PollSeen? {
      PollSees(w, r, polls, attempt + 1, k);
    }
  }

  /**
   A move of a volume that is on a candidate server, and not a root volume,
   succeeds when the backend does its part.
   */
  lemma MoveSucceeds(w: World, r: Request, down: set<string>, server: string, placed: Volume, polls: seq<PollReply>,
                     k: nat)
    requires AllOnePlace(w) && !Blank(r.target) && r.target in w.servers && Trimmed(r.volumeId) && r.volumeId != ""
    requires AllReadable(Answering(w.servers, down), SearchList(r))
    requires server in SearchList(r) && At(w, server, r.volumeId).Some? && !At(w, server, r.volumeId).value.root
    requires Disk(placed) == Disk(At(w, server, r.volumeId).value)
    requires k < LOOKUP_ATTEMPTS && PollAt(polls, k).PollSeen? && forall j ::
             0 <= j < k ==> !PollAt(polls, j).PollCancelled?
    ensures MoveAlone(w, r, down, DetachOk, AttachOk(placed), polls).1.Moved?
  {
    var readable := Answering(w.servers, down);
    SearchExactly(readable, r.volumeId, SearchList(r));
    assert Holds(readable, server, r.volumeId);
    var found := Find(readable, r.volumeId, r.candidates + [r.source, r.target]);
    assert found.Found?;
    assert At(w, found.server, r.volumeId) == Some(found.volume);
    assert OnePlace(w, r.volumeId);
    if server != r.target {
      var w1 := Detached(w, server, r.volumeId);
      DetachDisturbs(w, server, r.volumeId);
      assert OnePlace(w1, r.volumeId);
      ByIDHasID(w.servers[server], r.volumeId);
      AttachPlaces(w1, r.target, r.volumeId, placed);
      PollSees(Attached(w1, r.target, r.volumeId, placed), r, polls, 0, k);
    }
  }

  /** One mover driving the backend from search to confirmation. */
  class Mover {
    var world: World

    constructor (w: World)
      ensures world == w
    {
      world := w;
    }

    method DetachVolume(server: string, id: string, reply: DetachReply) returns (ok: bool)
      requires At(world, server, id).Some?
      modifies this
      ensures world == if reply.DetachRefused? then old(world) else Detached(old(world), server, id)
      ensures ok == reply.DetachOk?
    {
      if !reply.DetachRefused? {
        var v := FindVolumeByID(world.servers[server], id);
        var rest := BuildWithout(world.servers[server], id);
        world := World(world.servers[server := rest], world.pool[id := v.value]);
      }
      ok := reply.DetachOk?;
    }

    method AttachVolume(server: string, id: string, reply: AttachReply) returns (ok: bool)
      requires !reply.AttachRefused? ==> server in world.servers && id in world.pool
      modifies this
      ensures world == if reply.AttachRefused? then old(world) else Attached(old(world), server, id, reply.placed)
      ensures id in world.pool <==> id in old(world).pool && reply.AttachRefused?
      ensures ok == reply.AttachOk?
    {
      if !reply.AttachRefused? {
        world := World(world.servers[server := world.servers[server] + [reply.placed]], world.pool - {id});
      }
      ok := reply.AttachOk?;
    }

    /** The bounded wait until the target lists the volume; an unreadable description is asked for again. */
    method Confirm(r: Request, polls: seq<PollReply>) returns (out: MoveOutcome)
      requires r.target in world.servers
      requires polls != [] ==> !polls[0].PollCancelled?
      ensures out == PollMove(world, r, polls, 0)
    {
      for attempt := 0 to LOOKUP_ATTEMPTS
        invariant PollMove(world, r, polls, 0) == PollMove(world, r, polls, attempt)
      {
        var reply := PollAt(polls, attempt);
        if attempt > 0 && reply.PollCancelled? {
          return MoveFailed(MoveError.Cancelled);
        }
        if reply.PollSeen? {
          var seen := FindVolumeByID(world.servers[r.target], r.volumeId);
          if seen.Some? {
            return Moved(seen.value);
          }
        }
      }
      out := MoveFailed(NotSeen);
    }

    /** The whole move without interference: find, detach, attach, confirm. */
    method MoveVolume(r: Request, down: set<string>, detach: DetachReply, attach: AttachReply, polls: seq<PollReply>)
      returns (out: MoveOutcome)
      requires polls != [] ==> !polls[0].PollCancelled?
      requires !attach.AttachRefused? ==> r.target in world.servers && Trimmed(r.volumeId)
      modifies this
      ensures (world, out) == MoveAlone(old(world), r, down, detach, attach, polls)
    {
      if Blank(r.target) {
        return MoveFailed(TargetMissing);
      }
      var readable := Answering(world.servers, down);
      var found := FindVolume(readable, r.volumeId, r.candidates + [r.source, r.target]);
      if found.SearchFailed? {
        return MoveFailed(NotFound(found.error));
      }
      if found.server == r.target {
        return Moved(found.volume);
      }
      if found.volume.root {
        return MoveFailed(MoveError.RootRefused);
      }
      SearchExactly(readable, Trim(r.volumeId), Unique(r.candidates + [r.source, r.target]));
      out := MoveVolumeFrom(r, found.server, detach, attach, polls);
    }

    method MoveVolumeFrom(r: Request, server: string, detach: DetachReply, attach: AttachReply, polls: seq<PollReply>)
      returns (out: MoveOutcome)
      requires At(world, server, Trim(r.volumeId)).Some?
      requires polls != [] ==> !polls[0].PollCancelled?
      requires !attach.AttachRefused? ==> r.target in world.servers && Trimmed(r.volumeId)
      modifies this
      ensures (world, out) == MoveFrom(old(world), r, server, detach, attach, polls)
    {
      var ok := DetachVolume(server, Trim(r.volumeId), detach);
      if !ok {
        return MoveFailed(DetachFailed);
      }
      ok := AttachVolume(r.target, r.volumeId, attach);
      if !ok {
        return MoveFailed(AttachFailed);
      }
      out := Confirm(r, polls);
    }
  }

  /** What is attached is the disk that was detached. */
  predicate SameDiskPlaced(w: World, id: string, attach: AttachReply) {
    !attach.AttachRefused? ==>
      forall s :: s in w.servers && At(w, s, id).Some? ==> Disk(attach.placed) == Disk(At(w, s, id).value)
  }

  lemma {:induction false} PollMoved(w: World, r: Request, polls: seq<PollReply>, attempt: nat)
    ensures var out := PollMove(w, r, polls, attempt); out.Moved? ==> At(w, r.target, r.volumeId) == Some(out.volume)
    decreases LOOKUP_ATTEMPTS - attempt
  {
    if attempt < LOOKUP_ATTEMPTS {
      PollMoved(w, r, polls, attempt + 1);
    }
  }

  lemma MoveFromDisturbs(w: World, r: Request, server: string, detach: DetachReply, attach: AttachReply,
                         polls: seq<PollReply>)
    requires AllOnePlace(w) && At(w, server, Trim(r.volumeId)).Some? && !At(w, server, Trim(r.volumeId)).value.root
    requires !attach.AttachRefused? ==> r.target in w.servers && Trimmed(r.volumeId)
    requires SameDiskPlaced(w, Trim(r.volumeId), attach)
    ensures var (w', out) := MoveFrom(w, r, server, detach, attach, polls);
            Disturbs(w, w', Trim(r.volumeId)) && (out.Moved? ==> At(w', r.target, Trim(r.volumeId)) == Some(out.volume))
  {
    var id := Trim(r.volumeId);
    assert OnePlace(w, id);
    DisturbsNothing(w, id);
    if !detach.DetachRefused? {
      var w1 := Detached(w, server, id);
      DetachDisturbs(w, server, id);
      if !attach.AttachRefused? {
        ByIDHasID(w.servers[server], id);
        AttachDisturbs(w, w1, r.target, id, attach.placed);
        PollMoved(Attached(w1, r.target, r.volumeId, attach.placed), r, polls, 0);
      }
    }
  }

  lemma OnlyThere(w: World, server: string, id: string)
    requires OnePlace(w, id) && server in w.servers && At(w, server, id).Some?
    ensures id !in w.pool && forall s :: s in w.servers && s != server ==> At(w, s, id).None?
  {
  }

  lemma MoveAloneKeeps(w: World, r: Request, down: set<string>, detach: DetachReply, attach: AttachReply,
                       polls: seq<PollReply>)
    requires AllOnePlace(w) && SameDiskPlaced(w, Trim(r.volumeId), attach)
    requires !attach.AttachRefused? ==> r.target in w.servers && Trimmed(r.volumeId)
    ensures var (w', out) := MoveAlone(w, r, down, detach, attach, polls);
            Disturbs(w, w', Trim(r.volumeId)) && (out.Moved? ==> At(w', r.target, Trim(r.volumeId)) == Some(out.volume))
  {
    FoundThere(w, r, down);
    var found := Find(Answering(w.servers, down), r.volumeId, r.candidates + [r.source, r.target]);
    if Blank(r.target) || found.SearchFailed? || found.server == r.target || found.volume.root {
      DisturbsNothing(w, Trim(r.volumeId));
    } else {
      MoveFromDisturbs(w, r, found.server, detach, attach, polls);
    }
  }

  /**
   Whatever fails, a move of one volume loses, doubles or alters none, and
   success means it is on the target and nowhere else.
   */
  lemma MoveAloneDisturbs(w: World, r: Request, down: set<string>, detach: DetachReply, attach: AttachReply,
                          polls: seq<PollReply>)
    requires AllOnePlace(w) && SameDiskPlaced(w, Trim(r.volumeId), attach)
    requires !attach.AttachRefused? ==> r.target in w.servers && Trimmed(r.volumeId)
    ensures var (w', out) := MoveAlone(w, r, down, detach, attach, polls); var id := Trim(r.volumeId);
            && Disturbs(w, w', id)
            && (out.Moved? ==>
                  && At(w', r.target, id) == Some(out.volume) && id !in w'.pool
                  && forall s :: s in w'.servers && s != r.target ==> At(w', s, id).None?)
  {
    MoveAloneKeeps(w, r, down, detach, attach, polls);
    var (w', out) := MoveAlone(w, r, down, detach, attach, polls);
    if out.Moved? {
      OnlyThere(w', r.target, Trim(r.volumeId));
    }
  }

  /** The volume is on no server. */
  predicate Nowhere(w: World, id: string) {
    forall s :: s in w.servers ==> At(w, s, id).None?
  }

  lemma MoveFromStrands(w: World, r: Request, server: string, detach: DetachReply, attach: AttachReply,
                        polls: seq<PollReply>)
    requires AllOnePlace(w) && At(w, server, Trim(r.volumeId)).Some? && !At(w, server, Trim(r.volumeId)).value.root
    requires !attach.AttachRefused? ==> r.target in w.servers && Trimmed(r.volumeId)
    requires SameDiskPlaced(w, Trim(r.volumeId), attach)
    ensures Nowhere(MoveFrom(w, r, server, detach, attach, polls).0, Trim(r.volumeId))
       <==> !detach.DetachRefused? && (!detach.DetachOk? || attach.AttachRefused?)
  {
    var id := Trim(r.volumeId);
    assert OnePlace(w, id);
    if !detach.DetachRefused? {
      var w1 := Detached(w, server, id);
      DetachDisturbs(w, server, id);
      if detach.DetachOk? && !attach.AttachRefused? {
        assert OnePlace(w1, id);
        ByIDHasID(w.servers[server], id);
        AttachPlaces(w1, r.target, id, attach.placed);
      }
    }
  }

  /**
   A move strands a volume it found exactly if it set out to move it, the detach
   was applied, and then the detach was reported as failed or the attach refused.
   */
  lemma MoveStrandsExactly(w: World, r: Request, down: set<string>, detach: DetachReply, attach: AttachReply,
                           polls: seq<PollReply>, server: string, v: Volume)
    requires AllOnePlace(w) && SameDiskPlaced(w, Trim(r.volumeId), attach) && !Blank(r.target)
    requires !attach.AttachRefused? ==> r.target in w.servers && Trimmed(r.volumeId)
    requires Find(Answering(w.servers, down), r.volumeId, r.candidates + [r.source, r.target]) == Found(server, v)
    ensures Nowhere(MoveAlone(w, r, down, detach, attach, polls).0, Trim(r.volumeId))
       <==> server != r.target && !v.root && !detach.DetachRefused? && (!detach.DetachOk? || attach.AttachRefused?)
  {
    var id := Trim(r.volumeId);
    SearchExactly(Answering(w.servers, down), id, SearchList(r));
    assert At(w, server, id) == Some(v);
    if !v.root {
      MoveFromStrands(w, r, server, detach, attach, polls);
    }
  }

  // ------------------------------------------------- the machine does the same

  /** The replies a run of one mover received, in order; what was never sent counts as refused. */
  function DetachIn(run: seq<Label>): DetachReply {
    if run == [] then DetachRefused
    else if run[0].choice.DetachReplied? then run[0].choice.detach
    else DetachIn(run[1..])
  }

  function AttachIn(run: seq<Label>): AttachReply {
    if run == [] then AttachRefused
    else if run[0].choice.AttachReplied? then run[0].choice.attach
    else AttachIn(run[1..])
  }

  function PollsIn(run: seq<Label>): seq<PollReply> {
    if run == [] then []
    else (if run[0].choice.PollReplied? then [run[0].choice.poll] else []) + PollsIn(run[1..])
  }

  /** One mover at a place in a world. */
  function Single(w: World, pc: Pc): State {
    State(w, [pc])
  }

  /** The run is one of a single mover and ends with this outcome in this world. */
  predicate EndsAs(r: Request, w: World, pc: Pc, run: seq<Label>, end: (World, MoveOutcome)) {
    IsRun([r], Single(w, pc), run) && Final([r], Single(w, pc), run) == Single(end.0, Ended(end.1))
  }

  /** The first step of such a run, and the rest of it. */
  lemma {:induction false} FirstStep(r: Request, w: World, pc: Pc, run: seq<Label>, end: (World, MoveOutcome))
    requires EndsAs(r, w, pc, run, end) && !pc.Ended?
    ensures run != [] && run[0].mover == 0 && Enabled([r], Single(w, pc), 0, run[0].choice)
    ensures EndsAs(r, NextWorld(r, w, pc, run[0].choice), NextPc(r, w, pc, run[0].choice), run[1..], end)
  {
    var c := run[0].choice;
    assert [pc][0 := NextPc(r, w, pc, c)] == [NextPc(r, w, pc, c)];
    assert After([r], Single(w, pc), 0, c) == Single(NextWorld(r, w, pc, c), NextPc(r, w, pc, c));
  }

  /** An ended mover takes no more steps. */
  lemma {:induction false} NoMoreSteps(r: Request, w: World, out: MoveOutcome, run: seq<Label>,
                                       end: (World, MoveOutcome))
    requires EndsAs(r, w, Ended(out), run, end)
    ensures run == [] && end == (w, out)
  {
  }

  lemma {:induction false} PollRun(r: Request, w: World, a: nat, prefix: seq<PollReply>, run: seq<Label>,
                                   end: (World, MoveOutcome))
    requires |prefix| == a < LOOKUP_ATTEMPTS && EndsAs(r, w, Confirming(a), run, end)
    ensures end == (w, PollMove(w, r, prefix + PollsIn(run), a))
    decreases |run|
  {
    FirstStep(r, w, Confirming(a), run, end);
    var poll := run[0].choice.poll;
    var polls := prefix + PollsIn(run);
    assert polls == prefix + [poll] + PollsIn(run[1..]);
    assert PollAt(polls, a) == poll;
    match NextPc(r, w, Confirming(a), run[0].choice)
    case Ended(out) => NoMoreSteps(r, w, out, run[1..], end);
    case Confirming(b) => PollRun(r, w, b, prefix + [poll], run[1..], end);
  }

  lemma {:induction false} AttachRun(r: Request, w: World, run: seq<Label>, end: (World, MoveOutcome))
    requires EndsAs(r, w, WantAttach, run, end)
    ensures var attach := AttachIn(run);
            && (!attach.AttachRefused? ==> r.target in w.servers && r.volumeId in w.pool)
            && var w' := if attach.AttachRefused? then w else Attached(w, r.target, r.volumeId, attach.placed);
               end == (w', if attach.AttachOk? then PollMove(w', r, PollsIn(run), 0) else MoveFailed(AttachFailed))
  {
    FirstStep(r, w, WantAttach, run, end);
    var w' := NextWorld(r, w, WantAttach, run[0].choice);
    match NextPc(r, w, WantAttach, run[0].choice)
    case Ended(out) => NoMoreSteps(r, w', out, run[1..], end);
    case Confirming(a) =>
      PollRun(r, w', 0, [], run[1..], end);
      assert [] + PollsIn(run[1..]) == PollsIn(run);
  }

  lemma {:induction false} DetachRun(r: Request, w: World, server: string, run: seq<Label>, end: (World, MoveOutcome))
    requires AllOnePlace(w) && At(w, server, Trim(r.volumeId)).Some? && EndsAs(r, w, WantDetach(server), run, end)
    ensures !AttachIn(run).AttachRefused? ==> r.target in w.servers && Trimmed(r.volumeId)
    ensures end == MoveFrom(w, r, server, DetachIn(run), AttachIn(run), PollsIn(run))
  {
    FirstStep(r, w, WantDetach(server), run, end);
    var w' := NextWorld(r, w, WantDetach(server), run[0].choice);
    assert OnePlace(w, r.volumeId);
    assert PollsIn(run) == PollsIn(run[1..]) && AttachIn(run) == AttachIn(run[1..]);
    match NextPc(r, w, WantDetach(server), run[0].choice)
    case Ended(out) => NoMoreSteps(r, w', out, run[1..], end);
    case WantAttach => AttachRun(r, w', run[1..], end);
  }

  lemma {:induction false} SilentOrGot(run: seq<Label>)
    requires run != [] && (run[0].choice.Silent? || run[0].choice.Got?)
    ensures DetachIn(run) == DetachIn(run[1..]) && AttachIn(run) == AttachIn(run[1..])
            && PollsIn(run) == PollsIn(run[1..])
  {
  }

  /** A candidate that answers and does not have the volume is passed over. */
  lemma {:induction false} SearchPasses(servers: Servers, down: set<string>, id: string, rest: seq<string>)
    requires rest != [] && rest[0] in servers && rest[0] !in down && ByID(servers[rest[0]], id).None?
    ensures Search(Answering(servers, down), id, rest) == Search(Answering(servers, down), id, rest[1..])
  {
  }

  /** What a search that stops at this candidate gives. */
  lemma {:induction false} SearchStops(r: Request, w: World, rest: seq<string>, ok: bool)
    requires rest != [] && (ok ==> rest[0] in w.servers && At(w, rest[0], Trim(r.volumeId)).Some?)
    ensures Search(Answering(w.servers, if ok then {} else {rest[0]}), Trim(r.volumeId), rest)
         == if ok then Found(rest[0], At(w, rest[0], Trim(r.volumeId)).value)
           else SearchFailed(SearchError.GetFailed(rest[0]))
  {
  }

  /** The rest of a run once a candidate failed or has the volume. */
  lemma {:induction false} StopRun(r: Request, w: World, rest: seq<string>, run: seq<Label>, end: (World, MoveOutcome))
    requires AllOnePlace(w) && rest != [] && EndsAs(r, w, Searching(rest), run, end)
    requires run != [] && run[0].choice.Got? && (run[0].choice.ok ==> At(w, rest[0], Trim(r.volumeId)).Some?)
    ensures !AttachIn(run).AttachRefused? ==> r.target in w.servers && Trimmed(r.volumeId)
    ensures var ok, held := run[0].choice.ok, At(w, rest[0], Trim(r.volumeId));
            end == MoveFound(w, r, if ok then Found(rest[0], held.value)
              else SearchFailed(SearchError.GetFailed(rest[0])),
                             DetachIn(run), AttachIn(run), PollsIn(run))
  {
    FirstStep(r, w, Searching(rest), run, end);
    SilentOrGot(run);
    match AfterGet(r, w, rest, run[0].choice.ok)
    case Ended(out) => NoMoreSteps(r, w, out, run[1..], end);
    case WantDetach(server) => DetachRun(r, w, server, run[1..], end);
  }

  lemma {:induction false} SearchRun(r: Request, w: World, rest: seq<string>, run: seq<Label>,
                                     end: (World, MoveOutcome)) returns (down: set<string>)
    requires AllOnePlace(w) && NoRepeats(rest) && EndsAs(r, w, Searching(rest), run, end)
    ensures forall s :: s in down ==> s in rest
    ensures !AttachIn(run).AttachRefused? ==> r.target in w.servers && Trimmed(r.volumeId)
    ensures var found := Search(Answering(w.servers, down), Trim(r.volumeId), rest);
            && (found.Found? ==> At(w, found.server, Trim(r.volumeId)) == Some(found.volume))
            && end == MoveFound(w, r, found, DetachIn(run), AttachIn(run), PollsIn(run))
    decreases |run|
  {
    FirstStep(r, w, Searching(rest), run, end);
    var c := run[0].choice;
    SilentOrGot(run);
    down := {};
    if rest == [] {
      NoMoreSteps(r, w, MoveFailed(NotFound(NotOnCandidates)), run[1..], end);
    } else if c.ok && At(w, rest[0], Trim(r.volumeId)).None? {
      down := SearchRun(r, w, rest[1..], run[1..], end);
      SearchPasses(w.servers, down, Trim(r.volumeId), rest);
    } else {
      down := if c.ok then {} else {rest[0]};
      SearchStops(r, w, rest, c.ok);
      StopRun(r, w, rest, run, end);
    }
  }

  lemma {:induction false} ListWithoutRepeats(r: Request)
    ensures NoRepeats(SearchList(r))
  {
    UniqueElements(r.candidates + [r.source, r.target]);
  }

  /**
   A run of a single mover from its start to its end gives the world and the
   outcome of the move by itself, on the replies it received; `down` are the
   servers that did not answer.
   */
  lemma {:induction false} RunIsMoveAlone(r: Request, w: World, run: seq<Label>, end: (World, MoveOutcome))
    returns (down: set<string>)
    requires AllOnePlace(w) && EndsAs(r, w, Idle, run, end)
    ensures !AttachIn(run).AttachRefused? ==> r.target in w.servers && Trimmed(r.volumeId)
    ensures end == MoveAlone(w, r, down, DetachIn(run), AttachIn(run), PollsIn(run))
  {
    FirstStep(r, w, Idle, run, end);
    SilentOrGot(run);
    down := {};
    if Blank(r.target) {
      NoMoreSteps(r, w, MoveFailed(TargetMissing), run[1..], end);
    } else if Blank(r.volumeId) {
      NoMoreSteps(r, w, MoveFailed(NotFound(IdMissing)), run[1..], end);
    } else {
      ListWithoutRepeats(r);
      down := SearchRun(r, w, SearchList(r), run[1..], end);
    }
  }
}
