/**
 Operations run one at a time: the backend they leave, and what holds between
 any two points of such a history.
 */
module History {
  import opened Text
  import opened Volumes
  import opened ResizeOps

  // --------------------------------------------------- results of one Ensure

  lemma {:induction false} PollFinds(polls: seq<PollReply>, attempt: nat, before: seq<Volume>, after: seq<Volume>,
                                     id: string, req: ResizeRequest)
    requires PollOutcome(polls, attempt, before, after, id, req).Succeeded?
    ensures PollOutcome(polls, attempt, before, after, id, req).volume == FindResized(before, after, id, req)
    ensures FindResized(before, after, id, req).Some?
    decreases LOOKUP_ATTEMPTS - attempt
  {
    if attempt < LOOKUP_ATTEMPTS && PollAt(polls, attempt).PollSeen? && FindResized(before, after, id, req).None? {
      PollFinds(polls, attempt + 1, before, after, id, req);
    }
  }

  /** After a create, whatever the lookup finds is the appended disk. */
  lemma CreateFindsNewDisk(req: ResizeRequest, before: seq<Volume>, after: seq<Volume>, used: set<string>)
    requires SoundArray(before, used) && Added(req, used, before, after)
    requires FindResized(before, after, "", req).Some?
    ensures FindResized(before, after, "", req).value == after[|before|]
  {
    var found := FindResized(before, after, "", req).value;
    forall k | 0 <= k < |before| ensures after[k].name != req.name && after[k].id in NonEmptyIDs(before) {
      assert SameEntry(before[k], after[k]);
    }
    ByNameFound(after, req.name);
    FirstNewFound(after, NonEmptyIDs(before), req);
    var k :| 0 <= k < |after| && after[k] == found
             && (after[k].name == req.name || IsNewCandidate(after[k], NonEmptyIDs(before), req));
  }

  /** The volume a successful Ensure returns, on each of its paths. */
  lemma EnsureResult(op: Op, r: Replies, b: Backend, requested: set<string>) returns (v: Volume)
    requires op.Ensure? && Sound(b) && Legal(op, r, b, requested) && !Blank(op.req.name)
    requires Result(op, r, b).Succeeded?
    ensures Result(op, r, b) == Succeeded(Some(v))
    ensures v in ArrayOf(Effect(op, r, b), op.server)
    ensures v.id != "" && v.sizeGiB >= op.req.sizeGiB
    ensures ByName(ArrayOf(b, op.server), op.req.name).None? ==>
              v.id !in b.used && !v.root && (v.name == Trim(op.req.name) || v.name !in requested)
    ensures ByName(ArrayOf(b, op.server), op.req.name).Some? ==>
              v.id == ByName(ArrayOf(b, op.server), op.req.name).value.id && v.name == op.req.name
  {
    var req := op.req;
    var before := ArrayOf(b, op.server);
    v := Result(op, r, b).volume.value by {
      if PlanFor(op, before).Write? {
        PollFinds(r.polls, 0, before, r.put.stored, PlanFor(op, before).id, req);
      }
    }
    ByNameFound(before, req.name);
    match PlanFor(op, before)
    case Answer(_) =>
    case Write(next, id) =>
      var after := r.put.stored;
      PollFinds(r.polls, 0, before, after, id, req);
      if ByName(before, req.name).Some? {
        var k: nat :| k < |before| && before[k] == ByName(before, req.name).value && before[k].name == req.name;
        GrowWrite(req, before, after, b.used, requested, k);
        ByIDAt(after, k);
        assert v == after[k];
      } else {
        CreateWrite(req, before, after, b.used, requested);
        CreateFindsNewDisk(req, before, after, b.used);
        assert v == after[|before|];
      }
  }

  /** A success returns a disk that was known before exactly if that disk has the requested name, first of all. */
  lemma KnownDiskReturned(op: Op, r: Replies, b: Backend, requested: set<string>, w: Volume, id: string)
    requires op.Ensure? && Sound(b) && Legal(op, r, b, requested) && !Blank(op.req.name)
    requires Result(op, r, b) == Succeeded(Some(w)) && id in b.used
    ensures var named := ByName(ArrayOf(b, op.server), op.req.name);
            w.id == id <==> named.Some? && named.value.id == id
  {
    var w' := EnsureResult(op, r, b, requested);
  }

  // ---------------------------------------------------------------- histories

  /** Thread i runs ops[i] and is given reps[i]; the log lists threads in the order they take effect. */
  datatype Program = Program(ops: seq<Op>, reps: seq<Replies>)

  predicate ValidLog(p: Program, log: seq<nat>) {
    |p.ops| == |p.reps| && forall i :: 0 <= i < |log| ==> log[i] < |p.ops|
  }

  /** The backend after running the logged operations one at a time. */
  function Replay(p: Program, log: seq<nat>, b0: Backend): Backend
    requires ValidLog(p, log)
  {
    if log == [] then b0
    else
      var init, last := log[..|log| - 1], log[|log| - 1];
      Effect(p.ops[last], p.reps[last], Replay(p, init, b0))
  }

  function RequestedNames(ops: seq<Op>): set<string> {
    set i | 0 <= i < |ops| && ops[i].Ensure? :: ops[i].req.name
  }

  /** The replies of the operation at position i are ones the backend can give there. */
  predicate LegalAt(p: Program, log: seq<nat>, b0: Backend, i: nat)
    requires ValidLog(p, log) && i < |log|
  {
    Legal(p.ops[log[i]], p.reps[log[i]], Replay(p, log[..i], b0), RequestedNames(p.ops))
  }

  /** Every reply is one the backend can give at that point of the sequential history. */
  predicate LegalHistory(p: Program, log: seq<nat>, b0: Backend) {
    ValidLog(p, log) && Sound(b0) && forall i: nat :: i < |log| ==> LegalAt(p, log, b0, i)
  }

  lemma ReplayStep(p: Program, log: seq<nat>, b0: Backend, i: nat)
    requires ValidLog(p, log) && i < |log|
    ensures Replay(p, log[..i + 1], b0) == Effect(p.ops[log[i]], p.reps[log[i]], Replay(p, log[..i], b0))
  {
    assert log[..i + 1][..i] == log[..i];
  }

  /** Ids are only ever added, and servers stay. */
  predicate Grows(b: Backend, later: Backend) {
    Sound(b) && Sound(later) && b.used <= later.used && b.arrays.Keys == later.arrays.Keys
  }

  lemma SoundStep(p: Program, log: seq<nat>, b0: Backend, i: nat)
    requires LegalHistory(p, log, b0) && i < |log|
    ensures Sound(Replay(p, log[..i], b0)) ==> Grows(Replay(p, log[..i], b0), Replay(p, log[..i + 1], b0))
  {
    ReplayStep(p, log, b0, i);
    assert LegalAt(p, log, b0, i);
    if Sound(Replay(p, log[..i], b0)) {
      EffectSound(p.ops[log[i]], p.reps[log[i]], Replay(p, log[..i], b0), RequestedNames(p.ops));
    }
  }

  lemma {:induction false} ChainGrows(bs: seq<Backend>, i: nat, j: nat)
    requires i <= j < |bs| && Sound(bs[0])
    requires forall k :: 0 <= k < |bs| - 1 && Sound(bs[k]) ==> Grows(bs[k], bs[k + 1])
    ensures Grows(bs[i], bs[j])
    decreases j
  {
    if i < j {
      ChainGrows(bs, i, j - 1);
    } else if i > 0 {
      ChainGrows(bs, i - 1, i - 1);
    }
  }

  lemma ReplaySound(p: Program, log: seq<nat>, b0: Backend, i: nat, j: nat)
    requires LegalHistory(p, log, b0) && i <= j <= |log|
    ensures Grows(Replay(p, log[..i], b0), Replay(p, log[..j], b0))
  {
    var bs := seq(|log| + 1, k requires 0 <= k <= |log| => Replay(p, log[..k], b0));
    forall k | 0 <= k < |log| && Sound(bs[k]) ensures Grows(bs[k], bs[k + 1]) {
      SoundStep(p, log, b0, k);
    }
    assert bs[0] == b0;
    ChainGrows(bs, i, j);
  }

  /** Ids that some delete on this server names. */
  function DeletedOn(ops: seq<Op>, server: string): set<string> {
    set i | 0 <= i < |ops| && ops[i].Delete? && ops[i].server == server :: ops[i].volumeId
  }

  /** Ids that some expand on this server carries a name for. */
  function RenamedOn(ops: seq<Op>, server: string): set<string> {
    set i | 0 <= i < |ops| && ops[i].Expand? && !Blank(ops[i].req.name) && ops[i].server == server ::
      ops[i].req.volumeId
  }

  lemma {:induction false} LivesOnTransitive(
      a: Volume, middle: seq<Volume>, after: seq<Volume>, deleted: set<string>, renamed: set<string>)
    requires LivesOn(a, middle, renamed) && NothingLost(middle, after, deleted, renamed)
    requires a.root || a.id !in deleted
    ensures LivesOn(a, after, renamed)
  {
  }

  lemma {:induction false} InheritedTransitive(
      before: seq<Volume>, middle: seq<Volume>, c: Volume, used: set<string>, renamed: set<string>)
    requires Inherited(middle, c, renamed) && NothingResurrected(before, middle, used, renamed)
    requires c.id in used
    ensures Inherited(before, c, renamed)
  {
  }

  lemma Weaken(before: seq<Volume>, after: seq<Volume>, used: set<string>,
               deleted: set<string>, renamed: set<string>, moreDeleted: set<string>, moreRenamed: set<string>)
    requires NothingResurrected(before, after, used, renamed) && NothingLost(before, after, deleted, renamed)
    requires deleted <= moreDeleted && renamed <= moreRenamed
    ensures NothingResurrected(before, after, used, moreRenamed) && NothingLost(before, after, moreDeleted, moreRenamed)
  {
    forall a, b | Survives(a, b, renamed) ensures Survives(a, b, moreRenamed) {
    }
  }

  /** What two stretches keep, their concatenation keeps. */
  lemma KeepsCompose(before: seq<Volume>, middle: seq<Volume>, after: seq<Volume>, used: set<string>,
                     later: set<string>, deleted: set<string>, renamed: set<string>)
    requires used <= later
    requires NothingResurrected(before, middle, used, renamed) && NothingLost(before, middle, deleted, renamed)
    requires NothingResurrected(middle, after, later, renamed) && NothingLost(middle, after, deleted, renamed)
    ensures NothingResurrected(before, after, used, renamed) && NothingLost(before, after, deleted, renamed)
  {
    forall k | 0 <= k < |after| && after[k].id in used ensures Inherited(before, after[k], renamed) {
      InheritedTransitive(before, middle, after[k], used, renamed);
    }
    forall k | 0 <= k < |before| && (before[k].root || before[k].id !in deleted)
      ensures LivesOn(before[k], after, renamed)
    {
      LivesOnTransitive(before[k], middle, after, deleted, renamed);
    }
  }

  lemma StepKeeps(op: Op, r: Replies, b: Backend, ops: seq<Op>, t: nat, s: string)
    requires Sound(b) && t < |ops| && ops[t] == op && Legal(op, r, b, RequestedNames(ops))
    ensures var before, after := ArrayOf(b, s), ArrayOf(Effect(op, r, b), s);
            && NothingResurrected(before, after, b.used, RenamedOn(ops, s))
            && NothingLost(before, after, DeletedOn(ops, s), RenamedOn(ops, s))
  {
    var before, after := ArrayOf(b, s), ArrayOf(Effect(op, r, b), s);
    if s == op.server {
      EffectKeeps(op, r, b, RequestedNames(ops), s);
      assert Deleted(op) <= DeletedOn(ops, s) && Renamed(op) <= RenamedOn(ops, s);
      Weaken(before, after, b.used, Deleted(op), Renamed(op), DeletedOn(ops, s), RenamedOn(ops, s));
    } else {
      EffectSound(op, r, b, RequestedNames(ops));
      UnchangedKeeps(before, b.used, DeletedOn(ops, s), RenamedOn(ops, s));
    }
  }

  /**
   Between any two points of a history: deleted disks never come back, sizes
   never shrink, only deleted non-root disks go, and only an expand that carries
   a name for a disk changes that disk's name.
   */
  lemma {:induction false} HistoryKeeps(p: Program, log: seq<nat>, b0: Backend, i: nat, j: nat, s: string)
    requires LegalHistory(p, log, b0) && i <= j <= |log|
    ensures var before, after := ArrayOf(Replay(p, log[..i], b0), s), ArrayOf(Replay(p, log[..j], b0), s);
            && NothingResurrected(before, after, Replay(p, log[..i], b0).used, RenamedOn(p.ops, s))
            && NothingLost(before, after, DeletedOn(p.ops, s), RenamedOn(p.ops, s))
    decreases j
  {
    var before, after := ArrayOf(Replay(p, log[..i], b0), s), ArrayOf(Replay(p, log[..j], b0), s);
    if i == j {
      UnchangedKeeps(before, Replay(p, log[..i], b0).used, DeletedOn(p.ops, s), RenamedOn(p.ops, s));
    } else {
      HistoryKeeps(p, log, b0, i, j - 1, s);
      ReplaySound(p, log, b0, i, j - 1);
      ReplayStep(p, log, b0, j - 1);
      assert LegalAt(p, log, b0, j - 1);
      var b := Replay(p, log[..j - 1], b0);
      StepKeeps(p.ops[log[j - 1]], p.reps[log[j - 1]], b, p.ops, log[j - 1], s);
      KeepsCompose(before, ArrayOf(b, s), after, Replay(p, log[..i], b0).used, b.used, DeletedOn(p.ops, s),
        RenamedOn(p.ops, s));
    }
  }

  // --------------------------------------------------------- unshared volumes

  /** What surrounds an Ensure: the ids used before it, and the array and the used ids after it. */
  datatype Surroundings = Surroundings(req: ResizeRequest, earlier: set<string>, after: seq<Volume>, used: set<string>)

  /** A volume an Ensure returned: in the array it left, fresh or with the requested name. */
  predicate PlacedIn(at: Surroundings, requested: set<string>, v: Volume) {
    && v in at.after && v.sizeGiB >= at.req.sizeGiB
    && (v.id !in at.earlier || v.name == at.req.name)
    && (v.name == at.req.name || v.name == Trim(at.req.name) || v.name !in requested)
    && SoundArray(at.after, at.used)
  }

  /** What surrounds the Ensure at position i of a history. */
  function Around(p: Program, log: seq<nat>, b0: Backend, i: nat): Surroundings
    requires ValidLog(p, log) && i < |log| && p.ops[log[i]].Ensure?
  {
    var op, later := p.ops[log[i]], Replay(p, log[..i + 1], b0);
    Surroundings(op.req, Replay(p, log[..i], b0).used, ArrayOf(later, op.server), later.used)
  }

  /** Where the volume v returned by the Ensure at position i stands in the history. */
  ghost predicate Placed(p: Program, log: seq<nat>, b0: Backend, i: nat, v: Volume)
    requires LegalHistory(p, log, b0) && i < |log| && p.ops[log[i]].Ensure?
  {
    PlacedIn(Around(p, log, b0, i), RequestedNames(p.ops), v)
  }

  lemma EnsureInHistory(p: Program, log: seq<nat>, b0: Backend, i: nat, v: Volume)
    requires LegalHistory(p, log, b0) && i < |log|
    requires p.ops[log[i]].Ensure? && !Blank(p.ops[log[i]].req.name)
    requires Result(p.ops[log[i]], p.reps[log[i]], Replay(p, log[..i], b0)) == Succeeded(Some(v))
    ensures Placed(p, log, b0, i, v)
  {
    ReplaySound(p, log, b0, i, i + 1);
    ReplayStep(p, log, b0, i);
    assert LegalAt(p, log, b0, i);
    var v' := EnsureResult(p.ops[log[i]], p.reps[log[i]], Replay(p, log[..i], b0), RequestedNames(p.ops));
  }

  /** An Ensure that finds its name absent returns a disk nobody had seen before. */
  lemma FreshInHistory(p: Program, log: seq<nat>, b0: Backend, i: nat, v: Volume)
    requires LegalHistory(p, log, b0) && i < |log|
    requires p.ops[log[i]].Ensure? && !Blank(p.ops[log[i]].req.name)
    requires Result(p.ops[log[i]], p.reps[log[i]], Replay(p, log[..i], b0)) == Succeeded(Some(v))
    ensures var before := Replay(p, log[..i], b0);
            ByName(ArrayOf(before, p.ops[log[i]].server), p.ops[log[i]].req.name).None? ==>
              v.id !in before.used && !v.root
  {
    ReplaySound(p, log, b0, i, i);
    assert LegalAt(p, log, b0, i);
    var v' := EnsureResult(p.ops[log[i]], p.reps[log[i]], Replay(p, log[..i], b0), RequestedNames(p.ops));
  }

  lemma SameDiskSameName(a: seq<Volume>, c: seq<Volume>, early: set<string>, renamed: set<string>, v: Volume, w: Volume)
    requires SoundArray(a, early) && NothingResurrected(a, c, early, renamed)
    requires v in a && w in c
    ensures v.id == w.id && v.id !in renamed ==> v.name == w.name
  {
  }

  /** After the first k operations the server's array lists v. */
  ghost predicate Listed(p: Program, log: seq<nat>, b0: Backend, k: nat, server: string, v: Volume) {
    ValidLog(p, log) && k <= |log| && v in ArrayOf(Replay(p, log[..k], b0), server)
  }

  /** A disk seen at two points has one name, unless an expand carried a new one for it. */
  lemma NameKept(p: Program, log: seq<nat>, b0: Backend, i: nat, j: nat, server: string, v: Volume, w: Volume)
    requires LegalHistory(p, log, b0) && i <= j <= |log|
    requires Listed(p, log, b0, i, server, v) && Listed(p, log, b0, j, server, w)
    ensures v.id == w.id && v.id !in RenamedOn(p.ops, server) ==> v.name == w.name
  {
    ReplaySound(p, log, b0, i, j);
    HistoryKeeps(p, log, b0, i, j, server);
    SameDiskSameName(ArrayOf(Replay(p, log[..i], b0), server), ArrayOf(Replay(p, log[..j], b0), server),
                     Replay(p, log[..i], b0).used, RenamedOn(p.ops, server), v, w);
  }

  /** A disk placed for one name and later for another had its name changed in between. */
  lemma PlacedNames(first: Surroundings, second: Surroundings, requested: set<string>, v: Volume, w: Volume)
    requires PlacedIn(first, requested, v) && PlacedIn(second, requested, w) && first.used <= second.earlier
    requires first.req.name in requested && second.req.name in requested
    requires Trim(first.req.name) != Trim(second.req.name)
    ensures v.id == w.id ==> v.name != w.name
  {
    var k :| 0 <= k < |first.after| && first.after[k] == v;
    assert v.id in first.used;
  }

  lemma PlacedListed(p: Program, log: seq<nat>, b0: Backend, i: nat, v: Volume)
    requires LegalHistory(p, log, b0) && i < |log| && p.ops[log[i]].Ensure? && Placed(p, log, b0, i, v)
    ensures Listed(p, log, b0, i + 1, p.ops[log[i]].server, v) && p.ops[log[i]].req.name in RequestedNames(p.ops)
  {
  }

  lemma AroundGrows(p: Program, log: seq<nat>, b0: Backend, i: nat, j: nat)
    requires LegalHistory(p, log, b0) && i < j < |log| && p.ops[log[i]].Ensure? && p.ops[log[j]].Ensure?
    ensures Around(p, log, b0, i).used <= Around(p, log, b0, j).earlier
  {
    ReplaySound(p, log, b0, i + 1, j);
  }

  lemma PlacedApart(p: Program, log: seq<nat>, b0: Backend, i: nat, j: nat, v: Volume, w: Volume)
    requires LegalHistory(p, log, b0) && i < j < |log|
    requires p.ops[log[i]].Ensure? && p.ops[log[j]].Ensure?
    requires p.ops[log[i]].server == p.ops[log[j]].server
    requires Trim(p.ops[log[i]].req.name) != Trim(p.ops[log[j]].req.name)
    requires Placed(p, log, b0, i, v) && Placed(p, log, b0, j, w)
    ensures v.id == w.id ==> v.id in RenamedOn(p.ops, p.ops[log[i]].server)
  {
    PlacedListed(p, log, b0, i, v);
    PlacedListed(p, log, b0, j, w);
    AroundGrows(p, log, b0, i, j);
    PlacedNames(Around(p, log, b0, i), Around(p, log, b0, j), RequestedNames(p.ops), v, w);
    NameKept(p, log, b0, i + 1, j + 1, p.ops[log[i]].server, v, w);
  }

  /**
   Two creates with different names on one server never return the same disk,
   unless an expand carried a name for it.
   */
  lemma DistinctNamesDistinctDisks(p: Program, log: seq<nat>, b0: Backend, i: nat, j: nat, v: Volume, w: Volume)
    requires LegalHistory(p, log, b0) && i < j < |log|
    requires p.ops[log[i]].Ensure? && p.ops[log[j]].Ensure?
    requires p.ops[log[i]].server == p.ops[log[j]].server
    requires !Blank(p.ops[log[i]].req.name) && !Blank(p.ops[log[j]].req.name)
    requires Trim(p.ops[log[i]].req.name) != Trim(p.ops[log[j]].req.name)
    requires Result(p.ops[log[i]], p.reps[log[i]], Replay(p, log[..i], b0)) == Succeeded(Some(v))
    requires Result(p.ops[log[j]], p.reps[log[j]], Replay(p, log[..j], b0)) == Succeeded(Some(w))
    ensures v.id == w.id ==> v.id in RenamedOn(p.ops, p.ops[log[i]].server)
  {
    EnsureInHistory(p, log, b0, i, v);
    EnsureInHistory(p, log, b0, j, w);
    PlacedApart(p, log, b0, i, j, v, w);
  }

  /**
   The case the condition leaves open: a disk renamed by an expand is what the
   next request for its new name returns.
   */
  lemma RenamingExpandShares(op: Op, r: Replies, b: Backend, requested: set<string>, req: ResizeRequest)
    requires op.Expand? && Sound(b) && Legal(op, r, b, requested) && WritesArray(op, r, b)
    requires ByName(ArrayOf(b, op.server), req.name).None? && req.sizeGiB <= op.req.sizeGiB
    requires var disk := ByID(r.put.stored, op.req.volumeId); disk.Some? && disk.value.name == req.name
    ensures PlanFor(Ensure(op.server, req),
            ArrayOf(Effect(op, r, b), op.server)) == Answer(Succeeded(ByID(r.put.stored, op.req.volumeId)))
  {
    var before, after := ArrayOf(b, op.server), r.put.stored;
    WriteIsOneEdit(op, r, b, requested);
    var k: nat :| GrewOne(op.req, before, after, k) && before[k].id == op.req.volumeId;
    ByNameFound(before, req.name);
    assert forall j :: 0 <= j < |before| && j != k ==> SameEntry(before[j], after[j]);
    ByIDAt(after, k);
    ByNameFound(after, req.name);
  }

  lemma MemberLivesOn(before: seq<Volume>, after: seq<Volume>, v: Volume, deleted: set<string>, renamed: set<string>)
    requires v in before && NothingLost(before, after, deleted, renamed) && (v.root || v.id !in deleted)
    ensures LivesOn(v, after, renamed)
  {
    var k :| 0 <= k < |before| && before[k] == v;
  }

  /** A disk that an Ensure returned is still there, at least as large, unless somebody asked to delete it. */
  lemma EnsuredDiskRemains(p: Program, log: seq<nat>, b0: Backend, i: nat, v: Volume)
    requires LegalHistory(p, log, b0) && i < |log|
    requires p.ops[log[i]].Ensure? && !Blank(p.ops[log[i]].req.name)
    requires Result(p.ops[log[i]], p.reps[log[i]], Replay(p, log[..i], b0)) == Succeeded(Some(v))
    requires v.id !in DeletedOn(p.ops, p.ops[log[i]].server)
    ensures LivesOn(v, ArrayOf(Replay(p, log, b0), p.ops[log[i]].server), RenamedOn(p.ops, p.ops[log[i]].server))
    ensures v.sizeGiB >= p.ops[log[i]].req.sizeGiB
  {
    var s := p.ops[log[i]].server;
    EnsureInHistory(p, log, b0, i, v);
    HistoryKeeps(p, log, b0, i + 1, |log|, s);
    assert log[..|log|] == log;
    MemberLivesOn(ArrayOf(Replay(p, log[..i + 1], b0), s), ArrayOf(Replay(p, log, b0), s), v, DeletedOn(p.ops, s),
      RenamedOn(p.ops, s));
  }
}
