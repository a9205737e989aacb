/**
 The client itself: its lock table, and Ensure, Expand and Delete as they drive
 the backend step by step. Each method is proved to do what the operation run
 alone is specified to do.
 */
module ResizeClient {
  import opened Text
  import opened Volumes
  import opened ResizeOps

  // ------------------------------------------------------------ other callers

  /** The client and the backend at one moment: the mutex of each server key, the held mutexes, the arrays. */
  datatype Moment = Moment(locks: map<string, nat>, held: set<nat>, backend: Backend)

  /** Every server key has its own mutex, and only mutexes the table made are held. */
  ghost predicate Orderly(m: Moment) {
    && (forall k :: k in m.locks ==> m.locks[k] < |m.locks|)
    && (forall k, l :: k in m.locks && l in m.locks && m.locks[k] == m.locks[l] ==> k == l)
    && (forall l :: l in m.held ==> l < |m.locks|)
    && Sound(m.backend)
  }

  /** Every server key keeps the mutex it had. */
  ghost predicate Keeps(before: map<string, nat>, after: map<string, nat>) {
    forall k :: k in before ==> k in after && after[k] == before[k]
  }

  /** What other callers may leave behind, one after the other: they replace no mutex and leave arrays sound. */
  ghost predicate Follow(m: Moment, turns: seq<Moment>)
    decreases |turns|
  {
    turns == [] || (Orderly(turns[0]) && Keeps(m.locks, turns[0].locks) && Follow(turns[0], turns[1..]))
  }

  /** The key's mutex: the one it has, or a new one. */
  function LockAt(m: Moment, key: string): nat {
    if key in m.locks then m.locks[key] else |m.locks|
  }

  /** Nobody is inside the critical section of this key. */
  predicate Open(m: Moment, key: string) {
    key in m.locks ==> m.locks[key] !in m.held
  }

  /** The first moment at which the key is open: now, or after some turns of other callers. */
  function Acquired(m: Moment, turns: seq<Moment>, key: string): Moment
    decreases |turns|
  {
    if Open(m, key) || turns == [] then m else Acquired(turns[0], turns[1..], key)
  }

  function WithLock(m: Moment, key: string): Moment {
    m.(locks := m.locks[key := LockAt(m, key)])
  }

  /** The moment at which an operation runs: a rejected request does not wait. */
  function Served(op: Op, m: Moment, turns: seq<Moment>): Moment {
    if Accepted(op) then Acquired(m, turns, Trim(op.server)) else m
  }

  /** What an operation leaves that runs at this moment: its effect, and a mutex for its key. */
  function Left(op: Op, r: Replies, m: Moment): Moment {
    if Accepted(op) then WithLock(m, Trim(op.server)).(backend := Effect(op, r, m.backend)) else m
  }

  /** Other callers leave the key's mutex free sooner or later; a rejected request needs no mutex. */
  ghost predicate LetsIn(op: Op, m: Moment, turns: seq<Moment>) {
    Accepted(op) ==> Follow(m, turns) && Open(Acquired(m, turns, Trim(op.server)), Trim(op.server))
  }

  /** Waiting ends at an orderly moment with all the mutexes there were. */
  lemma {:induction false} AcquiredFollows(m: Moment, turns: seq<Moment>, key: string)
    requires Orderly(m) && Follow(m, turns)
    ensures Orderly(Acquired(m, turns, key)) && Keeps(m.locks, Acquired(m, turns, key).locks)
    decreases |turns|
  {
    if !Open(m, key) && turns != [] {
      AcquiredFollows(turns[0], turns[1..], key);
    }
  }

  /** The wait takes turns only while the key is held: it ends at the first of all moments at which the key is open. */
  lemma {:induction false} AcquiredFirst(m: Moment, turns: seq<Moment>, key: string, i: nat)
    requires i <= |turns| && Open(([m] + turns)[i], key) && forall j :: 0 <= j < i ==> !Open(([m] + turns)[j], key)
    ensures Acquired(m, turns, key) == ([m] + turns)[i]
    decreases |turns|
  {
    if i > 0 {
      assert ([m] + turns)[0] == m && [turns[0]] + turns[1..] == turns;
      forall j | 0 <= j < i - 1 ensures !Open(turns[j], key) {
        assert ([m] + turns)[j + 1] == turns[j];
      }
      AcquiredFirst(turns[0], turns[1..], key, i - 1);
    }
  }

  /** Without such a moment nobody ever owns the key. */
  lemma {:induction false} NeverAcquired(m: Moment, turns: seq<Moment>, key: string)
    ensures Open(Acquired(m, turns, key), key) <==> exists i :: 0 <= i <= |turns| && Open(([m] + turns)[i], key)
    decreases |turns|
  {
    if Open(m, key) {
      assert Open(([m] + turns)[0], key);
    } else if turns != [] {
      NeverAcquired(turns[0], turns[1..], key);
      assert [turns[0]] + turns[1..] == turns;
      assert forall i :: 0 < i <= |turns| ==> ([m] + turns)[i] == turns[i - 1];
      if i :| 0 <= i < |turns| && Open(turns[i], key) {
        assert Open(([m] + turns)[i + 1], key);
      }
    }
  }

  /** A mutex numbered after all others is a new one. */
  lemma NewMutex(m: Moment, key: string)
    requires Orderly(m)
    ensures Orderly(WithLock(m, key)) && Keeps(m.locks, WithLock(m, key).locks)
    ensures LockAt(m, key) < |WithLock(m, key).locks| && WithLock(m, key).locks[key] == LockAt(m, key)
    ensures key in m.locks ==> WithLock(m, key) == m
    ensures key !in m.locks ==> LockAt(m, key) !in m.held
  {
    assert key in m.locks ==> WithLock(m, key).locks == m.locks;
  }

  /** The moment at which the key's mutex was taken. */
  function Owned(m: Moment, key: string): Moment {
    WithLock(m, key).(held := m.held + {LockAt(m, key)})
  }

  lemma OwnedOrderly(m: Moment, key: string)
    requires Orderly(m)
    ensures Orderly(Owned(m, key))
  {
    NewMutex(m, key);
  }

  lemma LockedOrderly(m: Moment, turns: seq<Moment>, key: string)
    requires Orderly(m) && Follow(m, turns)
    ensures Orderly(Owned(Acquired(m, turns, key), key))
  {
    AcquiredFollows(m, turns, key);
    OwnedOrderly(Acquired(m, turns, key), key);
  }

  /** Making a mutex first and then waiting is waiting first and then making it. */
  lemma Locking(m: Moment, turns: seq<Moment>, key: string)
    requires Orderly(m) && Follow(m, turns)
    ensures Acquired(WithLock(m, key), turns, key) == WithLock(Acquired(m, turns, key), key)
    ensures LockAt(Acquired(m, turns, key), key) == LockAt(m, key)
    ensures LockAt(m, key) in m.held ==> WithLock(m, key) == m
  {
    NewMutex(m, key);
    if key in m.locks {
      AcquiredFollows(m, turns, key);
      NewMutex(Acquired(m, turns, key), key);
    }
  }

  /** Running the operation between taking the mutex and letting go of it. */
  lemma RunBetween(op: Op, r: Replies, at: Moment)
    requires Accepted(op) && LockAt(at, Trim(op.server)) !in at.held
    ensures var own := Owned(at, Trim(op.server));
            Left(op, r, at) == Moment(own.locks, own.held - {LockAt(at, Trim(op.server))}, Effect(op, r, own.backend))
  {
  }

  /** An operation leaves an orderly moment, with all the mutexes there were. */
  lemma LeftOrderly(op: Op, r: Replies, m: Moment, turns: seq<Moment>, requested: set<string>)
    requires Orderly(m) && LetsIn(op, m, turns) && Legal(op, r, Served(op, m, turns).backend, requested)
    ensures Sound(Served(op, m, turns).backend) && Orderly(Left(op, r, Served(op, m, turns)))
    ensures Keeps(m.locks, Left(op, r, Served(op, m, turns)).locks)
  {
    var at := Served(op, m, turns);
    if Accepted(op) {
      AcquiredFollows(m, turns, Trim(op.server));
      NewMutex(at, Trim(op.server));
      EffectSound(op, r, at.backend, requested);
    }
  }

  class Client {
    var serverLocks: map<string, nat>
    var held: set<nat>
    var backend: Backend

    function Now(): Moment
      reads this
    {
      Moment(serverLocks, held, backend)
    }

    ghost predicate Valid()
      reads this
    {
      Orderly(Now())
    }

    constructor (b: Backend)
      requires Sound(b)
      ensures Valid() && serverLocks == map[] && held == {} && backend == b
    {
      serverLocks, held, backend := map[], {}, b;
    }

    /** The key's one mutex, made on first use. */
    method ServerLock(key: string) returns (mu: nat)
      requires Valid()
      modifies this`serverLocks
      ensures Valid() && Now() == old(WithLock(Now(), key)) && mu == old(LockAt(Now(), key))
    {
      NewMutex(Now(), key);
      if key in serverLocks {
        mu := serverLocks[key];
        assert serverLocks[key := mu] == serverLocks;
      } else {
        mu := |serverLocks|;
        serverLocks := serverLocks[key := mu];
      }
    }

    /** Wait for the turns of other callers until the key's mutex is free, and own it from then on. */
    method Lock(key: string, mu: nat, turns: seq<Moment>)
      requires Valid() && key in serverLocks && serverLocks[key] == mu
      requires mu in held ==> Follow(Now(), turns)
      requires Open(Acquired(Now(), turns, key), key)
      modifies this
      ensures var at := old(Acquired(Now(), turns, key)); Now() == at.(held := at.held + {mu}) && mu !in at.held
    {
      var i := 0;
      while mu in held
        invariant 0 <= i <= |turns| && key in serverLocks && serverLocks[key] == mu
        invariant mu in held ==> Follow(Now(), turns[i..])
        invariant Acquired(Now(), turns[i..], key) == old(Acquired(Now(), turns, key))
        decreases |turns| - i
      {
        var turn := turns[i];
        assert turns[i..][1..] == turns[i + 1..];
        serverLocks, held, backend := turn.locks, turn.held, turn.backend;
        i := i + 1;
      }
      held := held + {mu};
    }

    /** The caller owns the key's one mutex, after waiting for it if another caller had it. */
    method LockServer(serverID: string, turns: seq<Moment>) returns (mu: nat)
      requires Valid() && Follow(Now(), turns) && Open(Acquired(Now(), turns, Trim(serverID)), Trim(serverID))
      modifies this
      ensures Valid()
      ensures var at := old(Acquired(Now(), turns, Trim(serverID)));
              && mu == LockAt(at, Trim(serverID)) && mu !in at.held && Now() == Owned(at, Trim(serverID))
    {
      var key := Trim(serverID);
      Locking(Now(), turns, key);
      LockedOrderly(Now(), turns, key);
      mu := ServerLock(key);
      Lock(key, mu, turns);
    }

    method Unlock(mu: nat)
      requires mu in held
      modifies this`held
      ensures Now() == old(Now().(held := held - {mu}))
    {
      held := held - {mu};
    }

    /** GET of the server description; the reply names the server that was asked for. */
    method GetServerState(server: string, ok: bool) returns (volumes: Option<seq<Volume>>)
      requires ok ==> server in backend.arrays
      ensures volumes == if ok then Some(ArrayOf(backend, server)) else None
    {
      volumes := if ok then Some(backend.arrays[server]) else None;
    }

    /** PUT of the whole array; an error reply does not say whether it was applied. */
    method ResizeServer(server: string, next: seq<Volume>, put: PutReply, ghost requested: set<string>)
      returns (ok: bool)
      requires Sound(backend) && server in backend.arrays
      requires put.Refused? || Replaces(ArrayOf(backend, server), next, put.stored, backend.used, requested)
      modifies this`backend
      ensures backend == if put.Refused? then old(backend) else Stored(old(backend), server, put.stored)
      ensures ok == put.Applied?
    {
      if !put.Refused? {
        var ids := set i | 0 <= i < |put.stored| :: put.stored[i].id;
        backend := Backend(backend.arrays[server := put.stored], backend.used + ids);
      }
      ok := put.Applied?;
    }

    /** The bounded lookup after a write. */
    method Lookup(server: string, before: seq<Volume>, id: string, req: ResizeRequest, polls: seq<PollReply>)
      returns (out: Outcome)
      requires server in backend.arrays
      requires polls != [] ==> !polls[0].PollCancelled?
      ensures out == PollOutcome(polls, 0, before, ArrayOf(backend, server), id, req)
    {
      for attempt := 0 to LOOKUP_ATTEMPTS
        invariant PollOutcome(polls, 0, before, ArrayOf(backend, server), id, req)
               == PollOutcome(polls, attempt, before, ArrayOf(backend, server), id, req)
      {
        var reply := PollAt(polls, attempt);
        if attempt > 0 && reply.PollCancelled? {
          return Failed(Cancelled);
        }
        var refreshed := GetServerState(server, reply.PollSeen?);
        if refreshed.None? {
          return Failed(PollFailed);
        }
        var found := FindResizedVolume(before, refreshed.value, id, req);
        if found.Some? {
          return Succeeded(found);
        }
      }
      out := Failed(LookupExhausted);
    }

    method ResizeVolume(server: string, volumes: seq<Volume>, id: string, req: ResizeRequest, r: Replies,
                        ghost requested: set<string>)
      returns (out: Outcome)
      requires Sound(backend) && server in backend.arrays
      requires r.put.Refused?
               || Replaces(ArrayOf(backend, server), Resized(volumes, id, req), r.put.stored, backend.used, requested)
      requires r.polls != [] ==> !r.polls[0].PollCancelled?
      modifies this`backend
      ensures backend == if r.put.Refused? then old(backend) else Stored(old(backend), server, r.put.stored)
      ensures out == if r.put.Applied? then PollOutcome(r.polls, 0, volumes, r.put.stored, id, req)
              else Failed(PutFailed)
    {
      var next := BuildResized(volumes, id, req);
      var ok := ResizeServer(server, next, r.put, requested);
      if !ok {
        return Failed(PutFailed);
      }
      out := Lookup(server, volumes, id, req, r.polls);
    }

    method EnsureLocked(server: string, req: ResizeRequest, r: Replies, ghost requested: set<string>)
      returns (out: Outcome)
      requires Sound(backend) && Accepted(Ensure(server, req)) && Legal(Ensure(server, req), r, backend, requested)
      requires r.polls != [] ==> !r.polls[0].PollCancelled?
      modifies this`backend
      ensures backend == Effect(Ensure(server, req), r, old(backend))
      ensures out == Result(Ensure(server, req), r, old(backend))
    {
      var volumes := GetServerState(server, r.getOk);
      if volumes.None? {
        return Failed(GetFailed);
      }
      var existing := FindVolumeByName(volumes.value, req.name);
      if existing.Some? && existing.value.sizeGiB >= req.sizeGiB {
        return Succeeded(existing);
      }
      out := ResizeVolume(server, volumes.value, if existing.Some? then existing.value.id else "", req, r, requested);
    }

    method ExpandLocked(server: string, req: ResizeRequest, r: Replies, ghost requested: set<string>)
      returns (out: Outcome)
      requires Sound(backend) && Accepted(Expand(server, req)) && Legal(Expand(server, req), r, backend, requested)
      requires r.polls != [] ==> !r.polls[0].PollCancelled?
      modifies this`backend
      ensures backend == Effect(Expand(server, req), r, old(backend))
      ensures out == Result(Expand(server, req), r, old(backend))
    {
      var volumes := GetServerState(server, r.getOk);
      if volumes.None? {
        return Failed(GetFailed);
      }
      var existing := FindVolumeByID(volumes.value, req.volumeId);
      if existing.None? {
        return Failed(VolumeNotFound);
      }
      if existing.value.root {
        return Failed(RootRefused);
      }
      if existing.value.sizeGiB > req.sizeGiB {
        return Failed(ShrinkRefused);
      }
      if existing.value.sizeGiB == req.sizeGiB {
        return Succeeded(existing);
      }
      out := ResizeVolume(server, volumes.value, req.volumeId, req, r, requested);
    }

    method DeleteLocked(server: string, volumeId: string, r: Replies, ghost requested: set<string>)
      returns (out: Outcome)
      requires Sound(backend) && Accepted(Delete(server, volumeId))
               && Legal(Delete(server, volumeId), r, backend, requested)
      modifies this`backend
      ensures backend == Effect(Delete(server, volumeId), r, old(backend))
      ensures out == Result(Delete(server, volumeId), r, old(backend))
    {
      var volumes := GetServerState(server, r.getOk);
      if volumes.None? {
        return Failed(GetFailed);
      }
      var target := FindVolumeByID(volumes.value, volumeId);
      if target.None? {
        return Succeeded(None);
      }
      if target.value.root {
        return Failed(RootRefused);
      }
      var next := BuildWithout(volumes.value, volumeId);
      var ok := ResizeServer(server, next, r.put, requested);
      out := if ok then Succeeded(None) else Failed(PutFailed);
    }

    /** The storage class must name a server, and the request a volume and a size; else no backend would be asked. */
    method ValidateResizeRequest(req: ResizeRequest) returns (ok: bool)
      ensures forall r, b :: ok <==> Result(EnsureOp(req), r, b) != Failed(InvalidRequest)
      ensures ok <==> Accepted(EnsureOp(req))
    {
      forall r, b ensures Accepted(EnsureOp(req)) <==> Result(EnsureOp(req), r, b) != Failed(InvalidRequest) {
        InvalidExactly(req, r, b);
      }
      if StorageClassServerID(req.params) == "" {
        return false;
      }
      if Blank(req.name) && Blank(req.volumeId) {
        return false;
      }
      return req.sizeGiB > 0;
    }

    /** Ensure, from the moment the server's mutex is free. */
    method EnsureVolume(req: ResizeRequest, turns: seq<Moment>, r: Replies, ghost requested: set<string>)
      returns (out: Outcome)
      requires Valid() && LetsIn(EnsureOp(req), Now(), turns)
      requires Legal(EnsureOp(req), r, Served(EnsureOp(req), Now(), turns).backend, requested)
      requires r.polls != [] ==> !r.polls[0].PollCancelled?
      modifies this
      ensures Valid() && Keeps(old(serverLocks), serverLocks)
      ensures var op := EnsureOp(req); var at := old(Served(op, Now(), turns));
              Now() == Left(op, r, at) && out == Result(op, r, at.backend)
    {
      ghost var at := Served(EnsureOp(req), Now(), turns);
      LeftOrderly(EnsureOp(req), r, Now(), turns, requested);
      var ok := ValidateResizeRequest(req);
      if !ok {
        return Failed(InvalidRequest);
      }
      var server := StorageClassServerID(req.params);
      assert at == Acquired(Now(), turns, Trim(server));
      var mu := LockServer(server, turns);
      assert backend == at.backend;
      RunBetween(EnsureOp(req), r, at);
      out := EnsureLocked(server, req, r, requested);
      Unlock(mu);
    }

    method ValidateExpandRequest(req: ResizeRequest) returns (ok: bool)
      ensures ok <==> Accepted(ExpandOp(req))
    {
      ok := ValidateResizeRequest(req);
      ok := ok && !Blank(req.volumeId);
    }

    method ExpandVolume(req: ResizeRequest, turns: seq<Moment>, r: Replies, ghost requested: set<string>)
      returns (out: Outcome)
      requires Valid() && LetsIn(ExpandOp(req), Now(), turns)
      requires Legal(ExpandOp(req), r, Served(ExpandOp(req), Now(), turns).backend, requested)
      requires r.polls != [] ==> !r.polls[0].PollCancelled?
      modifies this
      ensures Valid() && Keeps(old(serverLocks), serverLocks)
      ensures var op := ExpandOp(req); var at := old(Served(op, Now(), turns));
              Now() == Left(op, r, at) && out == Result(op, r, at.backend)
    {
      ghost var at := Served(ExpandOp(req), Now(), turns);
      LeftOrderly(ExpandOp(req), r, Now(), turns, requested);
      var ok := ValidateExpandRequest(req);
      if !ok {
        return Failed(InvalidRequest);
      }
      var server := StorageClassServerID(req.params);
      assert at == Acquired(Now(), turns, Trim(server));
      var mu := LockServer(server, turns);
      assert backend == at.backend;
      RunBetween(ExpandOp(req), r, at);
      out := ExpandLocked(server, req, r, requested);
      Unlock(mu);
    }

    method ValidateRef(server: string, volumeId: string) returns (ok: bool)
      ensures ok <==> Accepted(Delete(server, volumeId))
    {
      if Blank(server) {
        return false;
      }
      return !Blank(volumeId);
    }

    method DeleteVolume(server: string, volumeId: string, turns: seq<Moment>, r: Replies, ghost requested: set<string>)
      returns (out: Outcome)
      requires Valid() && LetsIn(Delete(server, volumeId), Now(), turns)
      requires Legal(Delete(server, volumeId), r, Served(Delete(server, volumeId), Now(), turns).backend, requested)
      modifies this
      ensures Valid() && Keeps(old(serverLocks), serverLocks)
      ensures Now() == Left(Delete(server, volumeId), r, old(Served(Delete(server, volumeId), Now(), turns)))
      ensures out == Result(Delete(server, volumeId), r, old(Served(Delete(server, volumeId), Now(), turns)).backend)
    {
      ghost var at := Served(Delete(server, volumeId), Now(), turns);
      LeftOrderly(Delete(server, volumeId), r, Now(), turns, requested);
      var ok := ValidateRef(server, volumeId);
      if !ok {
        return Failed(InvalidRequest);
      }
      assert at == Acquired(Now(), turns, Trim(server));
      var mu := LockServer(server, turns);
      assert backend == at.backend;
      RunBetween(Delete(server, volumeId), r, at);
      out := DeleteLocked(server, volumeId, r, requested);
      Unlock(mu);
    }
  }
}
