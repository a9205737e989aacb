/**
 Moving volumes between servers: detach from the server that has the volume,
 attach to the target, wait until it is seen there. Moves of different volumes
 interleave freely; moves of one volume are serialised.
 */
module Moves {
  import opened Text
  import opened Volumes
  import opened Candidates
  import opened ResizeOps

  // ---------------------------------------------------------------- placement

  /** Volumes on servers, and detached volumes on none. */
  datatype World = World(servers: Servers, pool: map<string, Volume>)

  function At(w: World, server: string, id: string): Option<Volume> {
    if server in w.servers then ByID(w.servers[server], id) else None
  }

  /** The disk itself; mount point and device path belong to the attachment. */
  function Disk(v: Volume): Volume {
    v.(mountPoint := "", devicePath := "")
  }

  function Detached(w: World, server: string, id: string): World
    requires At(w, server, id).Some?
  {
    World(w.servers[server := Without(w.servers[server], id)], w.pool[id := At(w, server, id).value])
  }

  function Attached(w: World, server: string, id: string, placed: Volume): World
    requires server in w.servers && id in w.pool
  {
    World(w.servers[server := w.servers[server] + [placed]], w.pool - {id})
  }

  lemma {:induction false} ByIDWithout(vs: seq<Volume>, id: string, x: string)
    ensures ByID(Without(vs, id), x) == if x == id then None else ByID(vs, x)
  {
    if vs != [] {
      ByIDWithout(vs[1..], id, x);
    }
  }

  lemma {:induction false} ByIDAppend(vs: seq<Volume>, v: Volume, x: string)
    ensures ByID(vs + [v], x) == if ByID(vs, x).Some? then ByID(vs, x) else if v.id == x then Some(v) else None
  {
    if vs != [] {
      ByIDAppend(vs[1..], v, x);
      assert (vs + [v])[1..] == vs[1..] + [v];
    }
  }

  lemma {:induction false} ByIDHasID(vs: seq<Volume>, x: string)
    ensures ByID(vs, x).Some? ==> ByID(vs, x).value.id == x
  {
    if vs != [] {
      ByIDHasID(vs[1..], x);
    }
  }

  lemma {:induction false} WithoutAppend(vs: seq<Volume>, v: Volume)
    ensures Without(vs + [v], v.id) == Without(vs, v.id)
  {
    if vs != [] {
      WithoutAppend(vs[1..], v);
      assert (vs + [v])[1..] == vs[1..] + [v];
    }
  }

  lemma {:induction false} WithoutTwice(vs: seq<Volume>, id: string)
    ensures Without(Without(vs, id), id) == Without(vs, id)
  {
    if vs != [] {
      WithoutTwice(vs[1..], id);
    }
  }

  /** A volume is on one server at most, and not also detached. */
  predicate OnePlace(w: World, id: string) {
    && (forall s, t :: s in w.servers && t in w.servers && At(w, s, id).Some? && At(w, t, id).Some? ==> s == t)
    && (id in w.pool ==> w.pool[id].id == id && Trimmed(id) && forall s :: s in w.servers ==> At(w, s, id).None?)
  }

  ghost predicate AllOnePlace(w: World) {
    forall id :: OnePlace(w, id)
  }

  /** Nothing but volume id differs: neither the others, nor their order, nor the detached ones. */
  predicate SameButFor(w: World, w': World, id: string) {
    && w'.servers.Keys == w.servers.Keys
    && (forall s :: s in w.servers ==> Without(w'.servers[s], id) == Without(w.servers[s], id))
    && w'.pool - {id} == w.pool - {id}
  }

  /** The volume exists somewhere, as this disk. */
  ghost predicate Exists(w: World, id: string, disk: Volume) {
    || (exists s :: s in w.servers && At(w, s, id).Some? && Disk(At(w, s, id).value) == disk)
    || (id in w.pool && Disk(w.pool[id]) == disk)
  }

  ghost predicate Conserves(w: World, w': World) {
    forall id, disk :: Exists(w, id, disk) <==> Exists(w', id, disk)
  }

  /** Volume x has the same place in both worlds. */
  predicate SamePlace(w: World, w': World, x: string) {
    && w'.servers.Keys == w.servers.Keys
    && (forall s :: s in w.servers ==> At(w', s, x) == At(w, s, x))
    && (x in w.pool <==> x in w'.pool) && (x in w.pool ==> w'.pool[x] == w.pool[x])
  }

  lemma SamePlaceKeeps(w: World, w': World, x: string)
    requires SamePlace(w, w', x)
    ensures OnePlace(w, x) ==> OnePlace(w', x)
    ensures forall disk :: Exists(w, x, disk) <==> Exists(w', x, disk)
  {
  }

  lemma DetachedExists(w: World, w': World, server: string, id: string)
    requires At(w, server, id).Some? && OnePlace(w, id)
    requires id in w'.pool && w'.pool[id] == At(w, server, id).value && forall s ::
             s in w'.servers ==> At(w', s, id).None?
    ensures forall disk :: Exists(w, id, disk) <==> Exists(w', id, disk)
  {
  }

  lemma DetachPlaces(w: World, server: string, id: string)
    requires At(w, server, id).Some? && OnePlace(w, id) && Trimmed(id)
    ensures var w' := Detached(w, server, id);
            && SameButFor(w, w', id) && OnePlace(w', id)
            && (forall s :: s in w'.servers ==> At(w', s, id).None?)
            && (forall x :: x != id ==> SamePlace(w, w', x))
            && (forall disk :: Exists(w, id, disk) <==> Exists(w', id, disk))
  {
    var w' := Detached(w, server, id);
    WithoutTwice(w.servers[server], id);
    ByIDWithout(w.servers[server], id, id);
    ByIDHasID(w.servers[server], id);
    forall x | x != id ensures SamePlace(w, w', x) {
      ByIDWithout(w.servers[server], id, x);
    }
    assert w'.pool - {id} == w.pool - {id};
    DetachedExists(w, w', server, id);
  }

  lemma AttachPlaces(w: World, server: string, id: string, placed: Volume)
    requires server in w.servers && id in w.pool && OnePlace(w, id) && Disk(placed) == Disk(w.pool[id])
    ensures var w' := Attached(w, server, id, placed);
            && SameButFor(w, w', id) && OnePlace(w', id)
            && At(w', server, id) == Some(placed)
            && (forall x :: x != id ==> SamePlace(w, w', x))
            && (forall disk :: Exists(w, id, disk) <==> Exists(w', id, disk))
  {
    var w' := Attached(w, server, id, placed);
    assert placed.id == id;
    WithoutAppend(w.servers[server], placed);
    ByIDAppend(w.servers[server], placed, id);
    forall x | x != id ensures SamePlace(w, w', x) {
      ByIDAppend(w.servers[server], placed, x);
    }
    assert w'.pool - {id} == w.pool - {id};
    forall disk ensures Exists(w, id, disk) <==> Exists(w', id, disk) {
      if Disk(placed) == disk {
        assert At(w', server, id) == Some(placed);
        assert Exists(w, id, disk) && Exists(w', id, disk);
      }
    }
  }

  // ------------------------------------------------------------------- moves

  datatype Request = Request(volumeId: string, source: string, target: string, candidates: seq<string>)

  datatype MoveError =
    | TargetMissing | NotFound(search: SearchError) | RootRefused
    | DetachFailed | AttachFailed | Cancelled | NotSeen

  datatype MoveOutcome = Moved(volume: Volume) | MoveFailed(error: MoveError)

  /** The search goes through `rest`; the id to look for is the trimmed one. */
  datatype Pc =
    | Idle
    | Searching(rest: seq<string>)
    | WantDetach(server: string)
    | WantAttach
    | Confirming(attempt: nat)
    | Ended(outcome: MoveOutcome)

  datatype State = State(world: World, movers: seq<Pc>)

  /** Backend replies; a failed change was applied wholly or not at all. */
  datatype DetachReply = DetachRefused | DetachedButFailed | DetachOk

  datatype AttachReply = AttachRefused | AttachedButFailed(placed: Volume) | AttachOk(placed: Volume)

  datatype Choice =
    | Silent
    | Got(ok: bool)
    | DetachReplied(detach: DetachReply)
    | AttachReplied(attach: AttachReply)
    | PollReplied(poll: PollReply)

  predicate Active(pc: Pc) {
    !pc.Idle? && !pc.Ended?
  }

  function SearchList(r: Request): seq<string> {
    Unique(r.candidates + [r.source, r.target])
  }

  /** No other move of the same volume is under way. */
  predicate Alone(reqs: seq<Request>, s: State, t: nat)
    requires t < |reqs| == |s.movers|
  {
    forall u :: 0 <= u < |reqs| && u != t && Active(s.movers[u]) ==> Trim(reqs[u].volumeId) != Trim(reqs[t].volumeId)
  }

  predicate Enabled(reqs: seq<Request>, s: State, t: nat, c: Choice) {
    && t < |reqs| == |s.movers|
    && match s.movers[t]
       case Idle => c.Silent? && Alone(reqs, s, t)
       case Searching(rest) => if rest == [] then c.Silent? else c.Got? && (c.ok ==> rest[0] in s.world.servers)
       case WantDetach(server) => c.DetachReplied?
         && (!c.detach.DetachRefused? ==> At(s.world, server, Trim(reqs[t].volumeId)).Some?)
       case WantAttach =>
         c.AttachReplied?
         && (!c.attach.AttachRefused? ==>
               && reqs[t].target in s.world.servers && reqs[t].volumeId in s.world.pool
               && Disk(c.attach.placed) == Disk(s.world.pool[reqs[t].volumeId]))
       case Confirming(attempt) =>
         c.PollReplied? && (c.poll.PollCancelled? ==> attempt > 0)
           && (c.poll.PollSeen? ==> reqs[t].target in s.world.servers)
       case Ended(_) => false
  }

  /** What the mover does with the description of the next candidate. */
  function AfterGet(r: Request, w: World, rest: seq<string>, ok: bool): Pc
    requires rest != []
  {
    if !ok then Ended(MoveFailed(NotFound(SearchError.GetFailed(rest[0]))))
    else
      match At(w, rest[0], Trim(r.volumeId))
      case None => Searching(rest[1..])
      case Some(v) =>
        if rest[0] == r.target then Ended(Moved(v))
        else if v.root then Ended(MoveFailed(MoveError.RootRefused))
        else WantDetach(rest[0])
  }

  function AfterPoll(r: Request, w: World, attempt: nat, poll: PollReply): Pc {
    var seen := At(w, r.target, r.volumeId);
    match poll
    case PollCancelled => Ended(MoveFailed(MoveError.Cancelled))
    case _ =>
      if poll.PollSeen? && seen.Some? then Ended(Moved(seen.value))
      else if attempt + 1 >= LOOKUP_ATTEMPTS then Ended(MoveFailed(NotSeen))
      else Confirming(attempt + 1)
  }

  function NextPc(r: Request, w: World, pc: Pc, c: Choice): Pc {
    match pc
    case Idle =>
      if Blank(r.target) then Ended(MoveFailed(TargetMissing))
      else if Blank(r.volumeId) then Ended(MoveFailed(NotFound(IdMissing)))
      else Searching(SearchList(r))
    case Searching(rest) =>
      if rest == [] then Ended(MoveFailed(NotFound(NotOnCandidates))) else AfterGet(r, w, rest, c.Got? && c.ok)
    case WantDetach(_) => if c == DetachReplied(DetachOk) then WantAttach else Ended(MoveFailed(DetachFailed))
    case WantAttach => if c.AttachReplied? && c.attach.AttachOk? then Confirming(0) else Ended(MoveFailed(AttachFailed))
    case Confirming(attempt) => AfterPoll(r, w, attempt, if c.PollReplied? then c.poll else PollError)
    case Ended(_) => pc
  }

  function NextWorld(r: Request, w: World, pc: Pc, c: Choice): World
    requires pc.WantDetach? && c.DetachReplied? && !c.detach.DetachRefused? ==> At(w, pc.server, Trim(r.volumeId)).Some?
    requires pc.WantAttach? && c.AttachReplied? && !c.attach.AttachRefused? ==>
             r.target in w.servers && r.volumeId in w.pool
  {
    if pc.WantDetach? && c.DetachReplied? && !c.detach.DetachRefused? then Detached(w, pc.server, Trim(r.volumeId))
    else if pc.WantAttach? && c.AttachReplied?
      && !c.attach.AttachRefused? then Attached(w, r.target, r.volumeId, c.attach.placed)
    else w
  }

  function After(reqs: seq<Request>, s: State, t: nat, c: Choice): State
    requires Enabled(reqs, s, t, c)
  {
    State(NextWorld(reqs[t], s.world, s.movers[t], c), s.movers[t := NextPc(reqs[t], s.world, s.movers[t], c)])
  }

  // --------------------------------------------------------------- invariant

  /** What a mover knows about its volume. */
  predicate MoverInv(r: Request, pc: Pc, w: World) {
    match pc
    case WantDetach(server) =>
      At(w, server, Trim(r.volumeId)).Some? && !At(w, server, Trim(r.volumeId)).value.root && server != r.target
    case WantAttach =>
      Trim(r.volumeId) in w.pool && !w.pool[Trim(r.volumeId)].root
    case Confirming(_) =>
      Trim(r.volumeId) == r.volumeId && At(w, r.target, r.volumeId).Some? && !At(w, r.target, r.volumeId).value.root
    case _ => true
  }

  /** Moves of one volume are serialised. */
  predicate Serialised(reqs: seq<Request>, s: State) {
    && |reqs| == |s.movers|
    && forall t, u :: 0 <= t < |reqs| && 0 <= u < |reqs| && t != u && Active(s.movers[t]) && Active(s.movers[u])
         ==> Trim(reqs[t].volumeId) != Trim(reqs[u].volumeId)
  }

  ghost predicate Inv(reqs: seq<Request>, s: State) {
    && Serialised(reqs, s)
    && AllOnePlace(s.world)
    && forall t :: 0 <= t < |reqs| ==> MoverInv(reqs[t], s.movers[t], s.world)
  }

  /** Before any mover starts, the invariant says no more than that every volume is in one place. */
  lemma InitialInv(reqs: seq<Request>, w: World)
    ensures Inv(reqs, State(w, seq(|reqs|, _ => Idle))) <==> AllOnePlace(w)
  {
  }

  /** A step's effect on placements: only the mover's own volume, which stays in one place and stays the same disk. */
  lemma StepPlaces(reqs: seq<Request>, s: State, t: nat, c: Choice)
    requires Inv(reqs, s) && Enabled(reqs, s, t, c)
    ensures var id, w' := Trim(reqs[t].volumeId), After(reqs, s, t, c).world;
            && SameButFor(s.world, w', id) && OnePlace(w', id)
            && (forall x :: x != id ==> SamePlace(s.world, w', x))
            && (forall disk :: Exists(s.world, id, disk) <==> Exists(w', id, disk))
  {
    var r, pc := reqs[t], s.movers[t];
    var id := Trim(r.volumeId);
    assert MoverInv(r, pc, s.world);
    assert OnePlace(s.world, id);
    if pc.WantDetach? && !c.detach.DetachRefused? {
      DetachPlaces(s.world, pc.server, id);
    } else if pc.WantAttach? && !c.attach.AttachRefused? {
      assert OnePlace(s.world, r.volumeId);
      assert r.volumeId == id;
      AttachPlaces(s.world, r.target, id, c.attach.placed);
    }
  }

  lemma OwnMover(reqs: seq<Request>, s: State, t: nat, c: Choice)
    requires Inv(reqs, s) && Enabled(reqs, s, t, c)
    ensures MoverInv(reqs[t], After(reqs, s, t, c).movers[t], After(reqs, s, t, c).world)
  {
    var r, pc := reqs[t], s.movers[t];
    assert MoverInv(r, pc, s.world);
    assert OnePlace(s.world, r.volumeId);
    if pc.WantAttach? && !c.attach.AttachRefused? {
      assert OnePlace(s.world, Trim(r.volumeId));
      AttachPlaces(s.world, r.target, r.volumeId, c.attach.placed);
      assert c.attach.placed.root == Disk(c.attach.placed).root == s.world.pool[r.volumeId].root;
    }
  }

  lemma OtherMover(r: Request, pc: Pc, w: World, w': World)
    requires MoverInv(r, pc, w) && SamePlace(w, w', Trim(r.volumeId))
    ensures MoverInv(r, pc, w')
  {
  }

  lemma StepKeepsInv(reqs: seq<Request>, s: State, t: nat, c: Choice)
    requires Inv(reqs, s) && Enabled(reqs, s, t, c)
    ensures Inv(reqs, After(reqs, s, t, c))
    ensures Conserves(s.world, After(reqs, s, t, c).world)
  {
    var s' := After(reqs, s, t, c);
    var id := Trim(reqs[t].volumeId);
    StepPlaces(reqs, s, t, c);
    forall x ensures OnePlace(s'.world, x) {
      if x != id {
        assert SamePlace(s.world, s'.world, x) && OnePlace(s.world, x);
        SamePlaceKeeps(s.world, s'.world, x);
      }
    }
    forall x, disk ensures Exists(s.world, x, disk) <==> Exists(s'.world, x, disk) {
      if x != id {
        SamePlaceKeeps(s.world, s'.world, x);
      }
    }
    forall u | 0 <= u < |reqs| ensures MoverInv(reqs[u], s'.movers[u], s'.world) {
      if u == t {
        OwnMover(reqs, s, t, c);
      } else if Active(s.movers[u]) {
        assert Trim(reqs[u].volumeId) != id;
        OtherMover(reqs[u], s.movers[u], s.world, s'.world);
      }
    }
  }

  // ---------------------------------------------------------------- theorems

  datatype Label = Label(mover: nat, choice: Choice)

  predicate IsRun(reqs: seq<Request>, s: State, run: seq<Label>)
    decreases |run|
  {
    run == [] || (Enabled(reqs, s, run[0].mover, run[0].choice)
                  && IsRun(reqs, After(reqs, s, run[0].mover, run[0].choice), run[1..]))
  }

  function Final(reqs: seq<Request>, s: State, run: seq<Label>): State
    requires IsRun(reqs, s, run)
    decreases |run|
  {
    if run == [] then s else Final(reqs, After(reqs, s, run[0].mover, run[0].choice), run[1..])
  }

  /** Over any run no volume is lost, duplicated or altered: each is on one server at most, or detached. */
  lemma {:induction false} MovesConserve(reqs: seq<Request>, s: State, run: seq<Label>)
    requires Inv(reqs, s) && IsRun(reqs, s, run)
    ensures Inv(reqs, Final(reqs, s, run))
    ensures Conserves(s.world, Final(reqs, s, run).world)
    decreases |run|
  {
    if run != [] {
      StepKeepsInv(reqs, s, run[0].mover, run[0].choice);
      MovesConserve(reqs, After(reqs, s, run[0].mover, run[0].choice), run[1..]);
    }
  }

  lemma RootStep(reqs: seq<Request>, s: State, t: nat, c: Choice, x: string, server: string)
    requires Inv(reqs, s) && Enabled(reqs, s, t, c)
    requires server in s.world.servers && At(s.world, server, x).Some? && At(s.world, server, x).value.root
    ensures SamePlace(s.world, After(reqs, s, t, c).world, x)
  {
    StepPlaces(reqs, s, t, c);
    assert OnePlace(s.world, x);
    assert MoverInv(reqs[t], s.movers[t], s.world);
    if x == Trim(reqs[t].volumeId) {
      assert OnePlace(s.world, reqs[t].volumeId);
      assert After(reqs, s, t, c).world == s.world;
    }
  }

  /** A root volume never leaves its server. */
  lemma {:induction false} RootStays(reqs: seq<Request>, s: State, run: seq<Label>, x: string, server: string)
    requires Inv(reqs, s) && IsRun(reqs, s, run)
    requires server in s.world.servers && At(s.world, server, x).Some? && At(s.world, server, x).value.root
    ensures At(Final(reqs, s, run).world, server, x) == At(s.world, server, x)
    decreases |run|
  {
    if run != [] {
      RootStep(reqs, s, run[0].mover, run[0].choice, x, server);
      StepKeepsInv(reqs, s, run[0].mover, run[0].choice);
      RootStays(reqs, After(reqs, s, run[0].mover, run[0].choice), run[1..], x, server);
    }
  }

  /** A move that reports success has the volume on its target and nowhere else. */
  lemma SuccessMeansOnTarget(reqs: seq<Request>, s: State, t: nat, c: Choice, v: Volume)
    requires Inv(reqs, s) && Enabled(reqs, s, t, c)
    requires After(reqs, s, t, c).movers[t] == Ended(Moved(v))
    ensures var w, r := After(reqs, s, t, c).world, reqs[t]; var id := Trim(r.volumeId);
            && At(w, r.target, id) == Some(v)
            && (forall x :: x in w.servers && x != r.target ==> At(w, x, id).None?)
            && id !in w.pool
  {
    assert MoverInv(reqs[t], s.movers[t], s.world);
    StepKeepsInv(reqs, s, t, c);
    assert OnePlace(After(reqs, s, t, c).world, Trim(reqs[t].volumeId));
  }

  /** Detach strictly precedes attach: when a volume is attached it is on no server. */
  lemma AttachAfterDetach(reqs: seq<Request>, s: State, t: nat, c: Choice)
    requires Inv(reqs, s) && Enabled(reqs, s, t, c) && s.movers[t].WantAttach?
    ensures forall x :: x in s.world.servers ==> At(s.world, x, Trim(reqs[t].volumeId)).None?
    ensures Trim(reqs[t].volumeId) in s.world.pool && !s.world.pool[Trim(reqs[t].volumeId)].root
  {
    assert MoverInv(reqs[t], s.movers[t], s.world);
    assert OnePlace(s.world, Trim(reqs[t].volumeId));
  }

  /** Detached, and no mover is about to attach it. */
  predicate Stranded(reqs: seq<Request>, s: State, x: string) {
    && |reqs| == |s.movers|
    && x in s.world.pool
    && forall t :: 0 <= t < |reqs| && Trim(reqs[t].volumeId) == x ==>
         !s.movers[t].WantAttach? && !s.movers[t].Confirming?
  }

  /** An attach that is refused leaves the volume on no server. */
  lemma RefusedAttachStrands(reqs: seq<Request>, s: State, t: nat)
    requires Inv(reqs, s) && t < |reqs| && s.movers[t].WantAttach?
    ensures Enabled(reqs, s, t, AttachReplied(AttachRefused))
    ensures Stranded(reqs, After(reqs, s, t, AttachReplied(AttachRefused)), Trim(reqs[t].volumeId))
  {
  }

  /** A detach that is applied but reported as failed does too, without an attach being sent at all. */
  lemma UnreportedDetachStrands(reqs: seq<Request>, s: State, t: nat)
    requires Inv(reqs, s) && t < |reqs| && s.movers[t].WantDetach?
    ensures Enabled(reqs, s, t, DetachReplied(DetachedButFailed))
    ensures Stranded(reqs, After(reqs, s, t, DetachReplied(DetachedButFailed)), Trim(reqs[t].volumeId))
  {
    assert MoverInv(reqs[t], s.movers[t], s.world);
    assert OnePlace(s.world, Trim(reqs[t].volumeId));
  }

  /** The step that makes a failing move lose its volume. */
  predicate StrandingStep(pc: Pc, c: Choice) {
    || (pc.WantDetach? && c == DetachReplied(DetachedButFailed))
    || (pc.WantAttach? && c == AttachReplied(AttachRefused))
  }

  lemma OthersStrandNothing(reqs: seq<Request>, s: State, t: nat, c: Choice, x: string)
    requires Inv(reqs, s) && Enabled(reqs, s, t, c) && x != Trim(reqs[t].volumeId)
    ensures Stranded(reqs, After(reqs, s, t, c), x) <==> Stranded(reqs, s, x)
  {
    StepPlaces(reqs, s, t, c);
    assert SamePlace(s.world, After(reqs, s, t, c).world, x);
    assert After(reqs, s, t, c).movers == s.movers[t := After(reqs, s, t, c).movers[t]];
  }

  /** Who holds a detached volume that is not stranded: the one mover about to attach it. */
  lemma HeldInFlight(reqs: seq<Request>, s: State, x: string) returns (u: nat)
    requires Inv(reqs, s) && x in s.world.pool && !Stranded(reqs, s, x)
    ensures u < |reqs| && Trim(reqs[u].volumeId) == x && s.movers[u].WantAttach?
  {
    u :| u < |reqs| && Trim(reqs[u].volumeId) == x && (s.movers[u].WantAttach? || s.movers[u].Confirming?);
    assert MoverInv(reqs[u], s.movers[u], s.world);
    assert OnePlace(s.world, x);
  }

  /**
   A volume that was on a server, or on its way, is stranded by a step exactly
   if its own mover's detach is applied but reported as failed, or its attach
   is refused.
   */
  lemma StrandsExactly(reqs: seq<Request>, s: State, t: nat, c: Choice, x: string)
    requires Inv(reqs, s) && Enabled(reqs, s, t, c) && !Stranded(reqs, s, x)
    ensures Stranded(reqs, After(reqs, s, t, c), x) <==> x == Trim(reqs[t].volumeId) && StrandingStep(s.movers[t], c)
  {
    assert MoverInv(reqs[t], s.movers[t], s.world);
    assert OnePlace(s.world, x);
    if x != Trim(reqs[t].volumeId) {
      OthersStrandNothing(reqs, s, t, c, x);
    } else if StrandingStep(s.movers[t], c) {
      if s.movers[t].WantDetach? {
        UnreportedDetachStrands(reqs, s, t);
      } else {
        RefusedAttachStrands(reqs, s, t);
      }
    } else if x in s.world.pool {
      var u := HeldInFlight(reqs, s, x);
      assert Active(s.movers[u]) && u == t;
      assert OnePlace(s.world, reqs[t].volumeId);
    }
  }

  lemma StrandedStep(reqs: seq<Request>, s: State, t: nat, c: Choice, x: string)
    requires Inv(reqs, s) && Enabled(reqs, s, t, c) && Stranded(reqs, s, x)
    ensures Stranded(reqs, After(reqs, s, t, c), x)
    ensures Trim(reqs[t].volumeId) == x && !s.movers[t].Ended? ==>
              !(After(reqs, s, t, c).movers[t].Ended? && After(reqs, s, t, c).movers[t].outcome.Moved?)
  {
    StepPlaces(reqs, s, t, c);
    assert OnePlace(s.world, x);
    assert MoverInv(reqs[t], s.movers[t], s.world);
    assert x != Trim(reqs[t].volumeId) ==> SamePlace(s.world, After(reqs, s, t, c).world, x);
  }

  /** A stranded volume stays stranded: no later move finds it, so none attaches it again. */
  lemma {:induction false} StrandedForever(reqs: seq<Request>, s: State, run: seq<Label>, x: string)
    requires Inv(reqs, s) && IsRun(reqs, s, run) && Stranded(reqs, s, x)
    ensures Stranded(reqs, Final(reqs, s, run), x)
    decreases |run|
  {
    if run != [] {
      StrandedStep(reqs, s, run[0].mover, run[0].choice, x);
      StepKeepsInv(reqs, s, run[0].mover, run[0].choice);
      StrandedForever(reqs, After(reqs, s, run[0].mover, run[0].choice), run[1..], x);
    }
  }
}
