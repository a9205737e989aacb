/**
 What holds of every run of the resize protocol, for any number of threads,
 servers and interleavings.
 */
module ResizeTheorems {
  import opened Text
  import opened Volumes
  import opened ResizeOps
  import opened History
  import opened ResizeProtocol
  import opened Linearizability

  lemma {:induction false} ReachedInv(ops: seq<Op>, b0: Backend, run: seq<Label>)
    requires Sound(b0) && IsRun(ops, Initial(ops, b0), run)
    ensures Inv(ops, Final(ops, Initial(ops, b0), run), b0)
  {
    InitialInv(ops, b0);
    RunKeepsInv(ops, Initial(ops, b0), run, b0);
  }

  /** The state a run from the initial state reaches. */
  function Reached(ops: seq<Op>, b0: Backend, run: seq<Label>): (s: State)
    requires Sound(b0) && IsRun(ops, Initial(ops, b0), run)
    ensures LogInv(ops, s)
  {
    ReachedInv(ops, b0, run);
    Final(ops, Initial(ops, b0), run)
  }

  // --------------------------------------------------------- linearizability

  /** The arrays and results of a run are those of running the logged operations one at a time. */
  lemma {:induction false} Linearizable(ops: seq<Op>, b0: Backend, run: seq<Label>)
    requires Sound(b0) && IsRun(ops, Initial(ops, b0), run)
    ensures var s := Reached(ops, b0, run);
            var p := Carried(ops, s);
            && LegalHistory(p, s.log, b0)
            && s.backend == Replay(p, s.log, b0)
            && forall t :: 0 <= t < |ops| && s.threads[t].pc.Finished? ==>
                 var at := s.threads[t].at;
                 && at < |s.log| && s.log[at] == t
                 && s.threads[t].pc.outcome == Result(ops[t], p.reps[t], Replay(p, s.log[..at], b0))
  {
    ReachedInv(ops, b0, run);
    var s := Reached(ops, b0, run);
    forall t | 0 <= t < |ops| && s.threads[t].pc.Finished?
      ensures s.threads[t].pc.outcome == Result(ops[t], Carried(ops, s).reps[t],
              Replay(Carried(ops, s), s.log[..s.threads[t].at], b0))
    {
      assert ThreadInv(ops[t], s.threads[t], Before(ops, s, b0, t), s.backend);
    }
  }

  /** No thread is logged twice, and an operation that finished before another started comes first. */
  lemma {:induction false} LogOrder(ops: seq<Op>, b0: Backend, run: seq<Label>)
    requires Sound(b0) && IsRun(ops, Initial(ops, b0), run)
    ensures var s := Reached(ops, b0, run);
            && (forall i, j :: 0 <= i < j < |s.log| ==> s.log[i] != s.log[j])
            && (forall t, u :: 0 <= t < |ops| && 0 <= u < |ops|
                  && s.threads[t].pc.Finished? && Logged(s.threads[u].pc)
                  && s.threads[t].finished <= s.threads[u].started
                  ==> s.threads[t].at < s.threads[u].at)
  {
    ReachedInv(ops, b0, run);
    var s := Reached(ops, b0, run);
    forall i, j | 0 <= i < j < |s.log| ensures s.log[i] != s.log[j] {
      assert s.threads[s.log[i]].at == i && s.threads[s.log[j]].at == j;
    }
  }

  /** From its GET to its PUT a thread's snapshot is the live array of its server. */
  lemma {:induction false} SnapshotIsLive(ops: seq<Op>, b0: Backend, run: seq<Label>, t: nat)
    requires Sound(b0) && IsRun(ops, Initial(ops, b0), run) && t < |ops|
    requires Reached(ops, b0, run).threads[t].pc.Planned?
    ensures var s := Reached(ops, b0, run);
            s.threads[t].pc.snapshot == ArrayOf(s.backend, ops[t].server)
  {
    ReachedInv(ops, b0, run);
    var s := Reached(ops, b0, run);
    assert ThreadInv(ops[t], s.threads[t], Before(ops, s, b0, t), s.backend);
  }

  // ------------------------------------------------------------ disks and ids

  /** A finished operation of a run, as an entry of the sequential history. */
  lemma {:induction false} FinishedEntry(ops: seq<Op>, b0: Backend, run: seq<Label>, t: nat, v: Volume)
    requires Sound(b0) && IsRun(ops, Initial(ops, b0), run) && t < |ops|
    requires Reached(ops, b0, run).threads[t].pc == Finished(Succeeded(Some(v)))
    ensures var s := Reached(ops, b0, run); var p := Carried(ops, s); var i := s.threads[t].at;
            && LegalHistory(p, s.log, b0) && s.backend == Replay(p, s.log, b0)
            && i < |s.log| && s.log[i] == t
            && Result(p.ops[s.log[i]], p.reps[s.log[i]], Replay(p, s.log[..i], b0)) == Succeeded(Some(v))
  {
    Linearizable(ops, b0, run);
  }

  lemma {:induction false} FinishedPlaced(ops: seq<Op>, b0: Backend, run: seq<Label>, t: nat, v: Volume)
    requires Sound(b0) && IsRun(ops, Initial(ops, b0), run) && t < |ops|
    requires ops[t].Ensure? && !Blank(ops[t].req.name)
    requires Reached(ops, b0, run).threads[t].pc == Finished(Succeeded(Some(v)))
    ensures var s := Reached(ops, b0, run); var p := Carried(ops, s); var i := s.threads[t].at;
            && LegalHistory(p, s.log, b0) && i < |s.log| && s.log[i] == t
            && Placed(p, s.log, b0, i, v)
  {
    var s := Reached(ops, b0, run);
    FinishedEntry(ops, b0, run, t, v);
    EnsureInHistory(Carried(ops, s), s.log, b0, s.threads[t].at, v);
  }

  /**
   Concurrent creates with different names on one server never share a disk,
   unless an expand carries a name for it.
   */
  lemma {:induction false} ConcurrentCreatesApart(ops: seq<Op>, b0: Backend, run: seq<Label>, t: nat, u: nat,
                                                  v: Volume, w: Volume)
    requires Sound(b0) && IsRun(ops, Initial(ops, b0), run) && t < |ops| && u < |ops|
    requires ops[t].Ensure? && ops[u].Ensure? && ops[t].server == ops[u].server
    requires !Blank(ops[t].req.name) && !Blank(ops[u].req.name) && Trim(ops[t].req.name) != Trim(ops[u].req.name)
    requires Reached(ops, b0, run).threads[t].pc == Finished(Succeeded(Some(v)))
    requires Reached(ops, b0, run).threads[u].pc == Finished(Succeeded(Some(w)))
    ensures v.id == w.id ==> v.id in RenamedOn(ops, ops[t].server)
  {
    var s := Reached(ops, b0, run);
    var p, i, j := Carried(ops, s), s.threads[t].at, s.threads[u].at;
    FinishedPlaced(ops, b0, run, t, v);
    FinishedPlaced(ops, b0, run, u, w);
    if i < j {
      PlacedApart(p, s.log, b0, i, j, v, w);
    } else {
      PlacedApart(p, s.log, b0, j, i, w, v);
    }
  }

  /** A create that found no volume of its name returns a disk nobody had seen before its PUT. */
  lemma {:induction false} CreatedDiskIsFresh(ops: seq<Op>, b0: Backend, run: seq<Label>, t: nat, v: Volume)
    requires Sound(b0) && IsRun(ops, Initial(ops, b0), run) && t < |ops|
    requires ops[t].Ensure? && !Blank(ops[t].req.name)
    requires Reached(ops, b0, run).threads[t].pc == Finished(Succeeded(Some(v)))
    ensures var s := Reached(ops, b0, run);
            && ValidLog(Carried(ops, s), s.log) && s.threads[t].at < |s.log|
            && var before := Replay(Carried(ops, s), s.log[..s.threads[t].at], b0);
               ByName(ArrayOf(before, ops[t].server), ops[t].req.name).None? ==> v.id !in before.used && !v.root
  {
    var s := Reached(ops, b0, run);
    FinishedEntry(ops, b0, run, t, v);
    FreshInHistory(Carried(ops, s), s.log, b0, s.threads[t].at, v);
  }

  /** No lost update: a disk some Ensure returned is on its server, large enough, unless a delete names it. */
  lemma {:induction false} NothingClobbered(ops: seq<Op>, b0: Backend, run: seq<Label>, t: nat, v: Volume)
    requires Sound(b0) && IsRun(ops, Initial(ops, b0), run) && t < |ops|
    requires ops[t].Ensure? && !Blank(ops[t].req.name)
    requires Reached(ops, b0, run).threads[t].pc == Finished(Succeeded(Some(v)))
    requires v.id !in DeletedOn(ops, ops[t].server)
    ensures v.sizeGiB >= ops[t].req.sizeGiB
    ensures LivesOn(v, ArrayOf(Reached(ops, b0, run).backend, ops[t].server), RenamedOn(ops, ops[t].server))
  {
    var s := Reached(ops, b0, run);
    FinishedEntry(ops, b0, run, t, v);
    EnsuredDiskRemains(Carried(ops, s), s.log, b0, s.threads[t].at, v);
  }

  // -------------------------------------------------------- frame of a step

  /** A step changes at most the array of its own server, and that by one edit. */
  lemma StepFrame(ops: seq<Op>, s: State, t: nat, c: Choice, b0: Backend)
    requires Inv(ops, s, b0) && Enabled(ops, s, t, c)
    ensures var s' := After(ops, s, t, c);
            && s'.backend.arrays.Keys == s.backend.arrays.Keys
            && (forall x :: x in s.backend.arrays && x != ops[t].server ==> s'.backend.arrays[x] == s.backend.arrays[x])
            && (s'.backend == s.backend
                || OneEdit(ops[t], s.backend.used, ArrayOf(s.backend, ops[t].server),
                     ArrayOf(s'.backend, ops[t].server)))
  {
    var before := Before(ops, s, b0, t);
    assert ThreadInv(ops[t], s.threads[t], before, s.backend);
    assert s.log[..|s.log|] == s.log;
    ReplaySound(Carried(ops, s), s.log, b0, |s.log|, |s.log|);
    if TakesEffect(ops[t], s, s.threads[t], c) {
      EffectStep(ops, s, t, c, before);
      var r := NextReplies(s.threads[t].replies, c);
      EffectSound(ops[t], r, s.backend, RequestedNames(ops));
      if WritesArray(ops[t], r, s.backend) {
        WriteIsOneEdit(ops[t], r, s.backend, RequestedNames(ops));
      }
    } else {
      SilentStep(ops, s, t, c);
    }
  }

  lemma StepKeepsVolumes(ops: seq<Op>, s: State, t: nat, c: Choice, b0: Backend, server: string)
    requires Inv(ops, s, b0) && Enabled(ops, s, t, c)
    ensures var s' := After(ops, s, t, c);
            && s.backend.used <= s'.backend.used
            && NothingResurrected(ArrayOf(s.backend, server), ArrayOf(s'.backend, server), s.backend.used,
                 RenamedOn(ops, server))
            && NothingLost(ArrayOf(s.backend, server), ArrayOf(s'.backend, server), DeletedOn(ops, server),
                 RenamedOn(ops, server))
  {
    var before := Before(ops, s, b0, t);
    assert ThreadInv(ops[t], s.threads[t], before, s.backend);
    assert s.log[..|s.log|] == s.log;
    ReplaySound(Carried(ops, s), s.log, b0, |s.log|, |s.log|);
    if TakesEffect(ops[t], s, s.threads[t], c) {
      EffectStep(ops, s, t, c, before);
      EffectSound(ops[t], NextReplies(s.threads[t].replies, c), s.backend, RequestedNames(ops));
      StepKeeps(ops[t], NextReplies(s.threads[t].replies, c), s.backend, ops, t, server);
    } else {
      SilentStep(ops, s, t, c);
      UnchangedKeeps(ArrayOf(s.backend, server), s.backend.used, DeletedOn(ops, server), RenamedOn(ops, server));
    }
  }

  /**
   Over any stretch of a run: no surviving disk shrinks or changes its filled
   fields, no root disk goes, only disks that a delete names go, and a disk that
   is gone never comes back.
   */
  lemma {:induction false} RunKeepsVolumes(ops: seq<Op>, s: State, run: seq<Label>, b0: Backend, server: string)
    requires Inv(ops, s, b0) && IsRun(ops, s, run)
    ensures var s' := Final(ops, s, run);
            && s.backend.used <= s'.backend.used
            && NothingResurrected(ArrayOf(s.backend, server), ArrayOf(s'.backend, server), s.backend.used,
                 RenamedOn(ops, server))
            && NothingLost(ArrayOf(s.backend, server), ArrayOf(s'.backend, server), DeletedOn(ops, server),
                 RenamedOn(ops, server))
    decreases |run|
  {
    var before := ArrayOf(s.backend, server);
    if run == [] {
      UnchangedKeeps(before, s.backend.used, DeletedOn(ops, server), RenamedOn(ops, server));
    } else {
      var t, c := run[0].thread, run[0].choice;
      var mid := After(ops, s, t, c);
      StepKeepsVolumes(ops, s, t, c, b0, server);
      StepKeepsInv(ops, s, t, c, b0);
      RunKeepsVolumes(ops, mid, run[1..], b0, server);
      KeepsCompose(before, ArrayOf(mid.backend, server), ArrayOf(Final(ops, s, run).backend, server),
                   s.backend.used, mid.backend.used, DeletedOn(ops, server), RenamedOn(ops, server));
    }
  }

  // ----------------------------------------------------- lock table, progress

  /** Over any run the lock table only grows, and every server key keeps its lock. */
  lemma {:induction false} TableGrowsOverRuns(ops: seq<Op>, s: State, run: seq<Label>)
    requires IsRun(ops, s, run)
    ensures s.table.Keys <= Final(ops, s, run).table.Keys
    ensures forall k :: k in s.table ==> Final(ops, s, run).table[k] == s.table[k]
    decreases |run|
  {
    if run != [] {
      var mid := After(ops, s, run[0].thread, run[0].choice);
      StepIsLockStep(ops, s, run[0].thread, run[0].choice);
      TableGrows(LockKeys(ops), s, mid, run[0].thread);
      TableGrowsOverRuns(ops, mid, run[1..]);
    }
  }

  /** In every reachable state: distinct keys have distinct locks, and one thread at most is inside a server. */
  lemma {:induction false} LocksSeparate(ops: seq<Op>, b0: Backend, run: seq<Label>)
    requires Sound(b0) && IsRun(ops, Initial(ops, b0), run)
    ensures var s := Reached(ops, b0, run);
            && (forall k, l :: k in s.table && l in s.table && k != l ==> s.table[k] != s.table[l])
            && (forall t, u :: 0 <= t < u < |ops| && InsideServer(s.threads[t].pc) && InsideServer(s.threads[u].pc)
                  ==> Trim(ops[t].server) != Trim(ops[u].server))
  {
    ReachedInv(ops, b0, run);
    var s := Reached(ops, b0, run);
    forall t, u | 0 <= t < u < |ops| && InsideServer(s.threads[t].pc) && InsideServer(s.threads[u].pc)
      ensures Trim(ops[t].server) != Trim(ops[u].server)
    {
      if LockKey(ops[t]) == LockKey(ops[u]) {
        MutualExclusion(LockKeys(ops), s, t, u);
      }
    }
  }

  /** A thread that waits for no lock can always move: the environment may refuse or fail, but it answers. */
  lemma CanMove(ops: seq<Op>, s: State, t: nat) returns (c: Choice)
    requires t < |s.threads| == |ops|
    requires !s.threads[t].pc.Finished? && !s.threads[t].pc.WantTable? && !s.threads[t].pc.WantServer?
    ensures Enabled(ops, s, t, c)
  {
    c := match s.threads[t].pc
      case Entered(_) => GetReplied(false)
      case Planned(_, _, _, _) => PutReplied(Refused)
      case Polling(_, _, _) => PollReplied(PollSeen)
      case _ => Silent;
  }

  /** There is never a deadlock. */
  lemma {:induction false} NoDeadlock(ops: seq<Op>, b0: Backend, run: seq<Label>, t: nat) returns (l: Label)
    requires Sound(b0) && IsRun(ops, Initial(ops, b0), run)
    requires t < |ops| && !Reached(ops, b0, run).threads[t].pc.Finished?
    ensures Enabled(ops, Reached(ops, b0, run), l.thread, l.choice)
  {
    ReachedInv(ops, b0, run);
    var s := Reached(ops, b0, run);
    var pc := s.threads[t].pc;
    var mover :=
      if pc.WantTable? && s.tableHolder.Some? then s.tableHolder.value
      else if pc.WantServer? && pc.lock in s.held then s.held[pc.lock]
      else t;
    if s.threads[mover].pc.WantTable? || s.threads[mover].pc.WantServer? {
      l := Label(mover, Silent);
    } else {
      var c := CanMove(ops, s, mover);
      l := Label(mover, c);
    }
  }

  /** Steps a thread still has before it. */
  function Rank(th: Thread): nat {
    match th.pc
    case Idle => 15
    case WantTable => 14
    case InTable => 13
    case LeaveTable(_) => 12
    case WantServer(_) => 11
    case Entered(_) => 10
    case Planned(_, _, _, _) => 9
    case Polling(_, _, _) => if |th.replies.polls| < LOOKUP_ATTEMPTS then 8 - |th.replies.polls| else 2
    case Leaving(_, _) => 1
    case Finished(_) => 0
  }

  function Measure(threads: seq<Thread>): nat {
    if threads == [] then 0 else Rank(threads[0]) + Measure(threads[1..])
  }

  lemma {:induction false} MeasureUpdate(threads: seq<Thread>, t: nat, th: Thread)
    requires t < |threads|
    ensures Measure(threads[t := th]) == Measure(threads) - Rank(threads[t]) + Rank(th)
  {
    if t == 0 {
      assert threads[t := th][1..] == threads[1..];
    } else {
      assert threads[t := th][1..] == threads[1..][t - 1 := th];
      MeasureUpdate(threads[1..], t - 1, th);
    }
  }

  lemma RankDrops(op: Op, s: State, th: Thread, c: Choice, before: Backend)
    requires ThreadInv(op, th, before, s.backend) && !th.pc.Finished?
    requires th.pc.Polling? ==> c.PollReplied?
    ensures Rank(NextThread(op, s, th, c)) < Rank(th)
  {
    NextPcPath(op, s, th, c);
    if th.pc.Polling? {
      PollStep(op, s, th, c, before);
    }
  }

  lemma StepDecreases(ops: seq<Op>, s: State, t: nat, c: Choice, b0: Backend)
    requires Inv(ops, s, b0) && Enabled(ops, s, t, c)
    ensures Measure(After(ops, s, t, c).threads) < Measure(s.threads)
  {
    MeasureUpdate(s.threads, t, NextThread(ops[t], s, s.threads[t], c));
    RankDrops(ops[t], s, s.threads[t], c, Before(ops, s, b0, t));
  }

  lemma {:induction false} RunMeasure(ops: seq<Op>, s: State, run: seq<Label>, b0: Backend)
    requires Inv(ops, s, b0) && IsRun(ops, s, run)
    ensures |run| + Measure(Final(ops, s, run).threads) <= Measure(s.threads)
    decreases |run|
  {
    if run != [] {
      StepDecreases(ops, s, run[0].thread, run[0].choice, b0);
      StepKeepsInv(ops, s, run[0].thread, run[0].choice, b0);
      RunMeasure(ops, After(ops, s, run[0].thread, run[0].choice), run[1..], b0);
    }
  }

  lemma {:induction false} IdleMeasure(threads: seq<Thread>)
    requires forall t :: 0 <= t < |threads| ==> threads[t].pc.Idle?
    ensures Measure(threads) == 15 * |threads|
  {
    if threads != [] {
      IdleMeasure(threads[1..]);
    }
  }

  lemma InitialMeasure(ops: seq<Op>, b0: Backend)
    ensures Measure(Initial(ops, b0).threads) == 15 * |ops|
  {
    IdleMeasure(Initial(ops, b0).threads);
  }

  /** Every run ends: n threads take at most 15 n steps together, whatever the schedule and the replies. */
  lemma {:induction false} RunsEnd(ops: seq<Op>, b0: Backend, run: seq<Label>)
    requires Sound(b0) && IsRun(ops, Initial(ops, b0), run)
    ensures |run| <= 15 * |ops|
  {
    InitialInv(ops, b0);
    RunMeasure(ops, Initial(ops, b0), run, b0);
    InitialMeasure(ops, b0);
  }
}
