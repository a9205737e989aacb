/**
 Every interleaving of Ensure, Expand and Delete is equivalent to running the
 operations one at a time in the order of the log.
 */
module Linearizability {
  import opened Volumes
  import opened ResizeOps
  import opened History
  import opened ResizeProtocol

  // --------------------------------------------------------------- invariant

  /** The program a state has carried out so far: each thread with the replies it received. */
  function Carried(ops: seq<Op>, s: State): (p: Program)
    ensures p.ops == ops && |p.reps| == |s.threads|
    ensures forall t :: 0 <= t < |s.threads| ==> p.reps[t] == s.threads[t].replies
  {
    Program(ops, seq(|s.threads|, t requires 0 <= t < |s.threads| => s.threads[t].replies))
  }

  /** The log lists exactly the threads that took effect, once each, at the position they remember. */
  predicate LogInv(ops: seq<Op>, s: State) {
    && |s.threads| == |ops|
    && (forall i :: 0 <= i < |s.log| ==>
        s.log[i] < |ops| && Logged(s.threads[s.log[i]].pc) && s.threads[s.log[i]].at == i)
    && (forall t :: 0 <= t < |ops| && Logged(s.threads[t].pc) ==>
        s.threads[t].at < |s.log| && s.log[s.threads[t].at] == t)
  }

  /** An operation takes effect after it started and before it finished. */
  predicate TimeInv(s: State) {
    forall t :: 0 <= t < |s.threads| ==>
      var th := s.threads[t];
      && th.started <= |s.log|
      && (Logged(th.pc) ==> th.started <= th.at < |s.log|)
      && (th.pc.Finished? ==> th.at < th.finished <= |s.log|)
  }

  predicate SeenAndAbsent(th: Thread, op: Op, stored: seq<Volume>)
    requires th.pc.Polling? && !op.Delete?
  {
    && |th.replies.polls| < LOOKUP_ATTEMPTS
    && (forall k :: 0 <= k < |th.replies.polls| ==> th.replies.polls[k].PollSeen?)
    && (th.replies.polls != [] ==> FindResized(th.pc.snapshot, stored, th.pc.id, op.req).None?)
  }

  /**
   What a thread knows: between GET and PUT its snapshot is the live array,
   while it polls the live array is the one it wrote, and its result is the one
   of the sequential history.
   */
  predicate ThreadInv(op: Op, th: Thread, before: Backend, backend: Backend) {
    match th.pc
    case Idle => th.replies.polls == []
    case Planned(_, snapshot, next, id) =>
      && Accepted(op) && th.replies.getOk && th.replies.polls == [] && op.server in backend.arrays
      && snapshot == ArrayOf(backend, op.server)
      && PlanFor(op, snapshot) == Write(next, id)
    case Polling(_, snapshot, id) =>
      && Accepted(op) && th.replies.getOk && th.replies.put.Applied? && !op.Delete?
      && op.server in backend.arrays
      && snapshot == ArrayOf(before, op.server)
      && PlanFor(op, snapshot).Write? && PlanFor(op, snapshot).id == id
      && ArrayOf(backend, op.server) == th.replies.put.stored
      && SeenAndAbsent(th, op, th.replies.put.stored)
    case Leaving(_, outcome) => Result(op, th.replies, before) == outcome
    case Finished(outcome) => Result(op, th.replies, before) == outcome
    case _ => Accepted(op) && th.replies.polls == []
  }

  /** The sequential backend just before a thread's operation; only meaningful once it took effect. */
  function Before(ops: seq<Op>, s: State, b0: Backend, t: nat): Backend
    requires LogInv(ops, s) && t < |ops|
  {
    if Logged(s.threads[t].pc) then Replay(Carried(ops, s), s.log[..s.threads[t].at], b0) else b0
  }

  predicate HistoryInv(ops: seq<Op>, s: State, b0: Backend) {
    && LogInv(ops, s)
    && LegalHistory(Carried(ops, s), s.log, b0)
    && s.backend == Replay(Carried(ops, s), s.log, b0)
  }

  predicate ThreadsInv(ops: seq<Op>, s: State, b0: Backend)
    requires LogInv(ops, s)
  {
    forall t :: 0 <= t < |ops| ==> ThreadInv(ops[t], s.threads[t], Before(ops, s, b0, t), s.backend)
  }

  predicate Inv(ops: seq<Op>, s: State, b0: Backend) {
    && TableInv(s) && LockInv(LockKeys(ops), s)
    && HistoryInv(ops, s, b0) && ThreadsInv(ops, s, b0)
    && TimeInv(s)
  }

  // --------------------------------------- histories do not depend on polling

  predicate SameWrites(r: Replies, r': Replies) {
    r.getOk == r'.getOk && r.put == r'.put
  }

  lemma {:induction false} ReplayAgree(p: Program, p': Program, log: seq<nat>, b0: Backend)
    requires p.ops == p'.ops && ValidLog(p, log) && ValidLog(p', log)
    requires forall i :: 0 <= i < |log| ==> SameWrites(p.reps[log[i]], p'.reps[log[i]])
    ensures Replay(p, log, b0) == Replay(p', log, b0)
  {
    if log != [] {
      var init := log[..|log| - 1];
      assert forall i :: 0 <= i < |init| ==> init[i] == log[i];
      ReplayAgree(p, p', init, b0);
    }
  }

  lemma ReplayAgreeAll(p: Program, p': Program, log: seq<nat>, b0: Backend)
    requires p.ops == p'.ops && ValidLog(p, log) && ValidLog(p', log)
    requires forall i :: 0 <= i < |log| ==> SameWrites(p.reps[log[i]], p'.reps[log[i]])
    ensures forall i :: 0 <= i <= |log| ==> Replay(p, log[..i], b0) == Replay(p', log[..i], b0)
  {
    forall i | 0 <= i <= |log| ensures Replay(p, log[..i], b0) == Replay(p', log[..i], b0) {
      assert forall k :: 0 <= k < i ==> log[..i][k] == log[k];
      ReplayAgree(p, p', log[..i], b0);
    }
  }

  lemma LegalAgree(op: Op, r: Replies, r': Replies, b: Backend, requested: set<string>)
    requires SameWrites(r, r') && Legal(op, r, b, requested)
    ensures Legal(op, r', b, requested)
  {
  }

  lemma LegalHistoryAgree(p: Program, p': Program, log: seq<nat>, b0: Backend)
    requires p.ops == p'.ops && LegalHistory(p, log, b0) && ValidLog(p', log)
    requires forall i :: 0 <= i < |log| ==> SameWrites(p.reps[log[i]], p'.reps[log[i]])
    ensures LegalHistory(p', log, b0)
    ensures forall i :: 0 <= i <= |log| ==> Replay(p, log[..i], b0) == Replay(p', log[..i], b0)
  {
    ReplayAgreeAll(p, p', log, b0);
    forall i: nat | i < |log| ensures LegalAt(p', log, b0, i) {
      assert LegalAt(p, log, b0, i);
      LegalAgree(p.ops[log[i]], p.reps[log[i]], p'.reps[log[i]], Replay(p, log[..i], b0), RequestedNames(p.ops));
    }
  }

  lemma LegalHistoryExtend(p: Program, log: seq<nat>, b0: Backend, t: nat)
    requires LegalHistory(p, log, b0) && t < |p.ops|
    requires Legal(p.ops[t], p.reps[t], Replay(p, log, b0), RequestedNames(p.ops))
    ensures LegalHistory(p, log + [t], b0)
    ensures Replay(p, log + [t], b0) == Effect(p.ops[t], p.reps[t], Replay(p, log, b0))
    ensures forall i :: 0 <= i <= |log| ==> (log + [t])[..i] == log[..i]
  {
    var log' := log + [t];
    assert log'[..|log|] == log && log[..|log|] == log;
    forall i: nat | i < |log'| ensures LegalAt(p, log', b0, i) {
      assert log'[..i] == log[..i];
      assert i < |log| ==> LegalAt(p, log, b0, i);
    }
  }

  // ------------------------------------------------------------- effect steps

  /** The step that takes effect changes the backend as the operation alone would, with replies the backend may give. */
  lemma EffectStep(ops: seq<Op>, s: State, t: nat, c: Choice, before: Backend)
    requires Enabled(ops, s, t, c) && ThreadInv(ops[t], s.threads[t], before, s.backend)
    requires TakesEffect(ops[t], s, s.threads[t], c)
    ensures var r := NextReplies(s.threads[t].replies, c);
            && Legal(ops[t], r, s.backend, RequestedNames(ops))
            && NextBackend(ops[t], s, s.threads[t], c) == Effect(ops[t], r, s.backend)
  {
  }

  lemma SilentStep(ops: seq<Op>, s: State, t: nat, c: Choice)
    requires Enabled(ops, s, t, c) && !TakesEffect(ops[t], s, s.threads[t], c)
    ensures NextBackend(ops[t], s, s.threads[t], c) == s.backend
  {
  }

  /** The bookkeeping part of a step. */
  predicate LogStep(s: State, s': State, t: nat) {
    && t < |s.threads| == |s'.threads|
    && (forall u :: 0 <= u < |s.threads| && u != t ==> s'.threads[u] == s.threads[u])
    && var th, th' := s.threads[t], s'.threads[t];
       && th'.started == (if th.pc.Idle? then |s.log| else th.started)
       && (th'.pc.Finished? ==> th'.finished == |s'.log|)
       && (if !Logged(th.pc) && Logged(th'.pc) then s'.log == s.log + [t] && th'.at == |s.log|
           else s'.log == s.log && th'.at == th.at && (Logged(th.pc) <==> Logged(th'.pc)))
       && (th'.pc.Finished? ==> th.pc.Idle? || Logged(th.pc))
       && !th'.pc.Idle?
  }

  lemma StepIsLogStep(ops: seq<Op>, s: State, t: nat, c: Choice)
    requires Enabled(ops, s, t, c)
    ensures LogStep(s, After(ops, s, t, c), t)
  {
  }

  lemma LogStepKeepsLog(ops: seq<Op>, s: State, s': State, t: nat)
    requires LogStep(s, s', t) && LogInv(ops, s)
    ensures LogInv(ops, s')
  {
  }

  lemma LogStepKeepsTime(s: State, s': State, t: nat)
    requires LogStep(s, s', t) && TimeInv(s)
    ensures TimeInv(s')
  {
  }

  lemma StepKeepsLog(ops: seq<Op>, s: State, t: nat, c: Choice)
    requires Enabled(ops, s, t, c) && LogInv(ops, s) && TimeInv(s)
    ensures LogInv(ops, After(ops, s, t, c)) && TimeInv(After(ops, s, t, c))
  {
    StepIsLogStep(ops, s, t, c);
    LogStepKeepsLog(ops, s, After(ops, s, t, c), t);
    LogStepKeepsTime(s, After(ops, s, t, c), t);
  }

  /** Only polls of logged threads change. */
  lemma StepKeepsWrites(ops: seq<Op>, s: State, t: nat, c: Choice)
    requires Enabled(ops, s, t, c) && LogInv(ops, s)
    ensures var p, p' := Carried(ops, s), Carried(ops, After(ops, s, t, c));
            forall i :: 0 <= i < |s.log| ==> SameWrites(p.reps[s.log[i]], p'.reps[s.log[i]])
  {
  }

  /** The history after a step, in terms of the log and the replies alone. */
  lemma HistoryStep(p: Program, p': Program, log: seq<nat>, b0: Backend, t: nat, effect: bool, backend: Backend)
    requires p.ops == p'.ops && LegalHistory(p, log, b0) && ValidLog(p', log) && t < |p.ops|
    requires forall i :: 0 <= i < |log| ==> SameWrites(p.reps[log[i]], p'.reps[log[i]])
    requires backend == Replay(p, log, b0)
    requires effect ==> Legal(p.ops[t], p'.reps[t], backend, RequestedNames(p.ops))
    ensures var log' := if effect then log + [t] else log;
            && LegalHistory(p', log', b0)
            && Replay(p', log', b0) == (if effect then Effect(p.ops[t], p'.reps[t], backend) else backend)
            && (forall i :: 0 <= i <= |log| ==>
                log'[..i] == log[..i] && Replay(p', log'[..i], b0) == Replay(p, log[..i], b0))
  {
    LegalHistoryAgree(p, p', log, b0);
    assert log[..|log|] == log;
    if effect {
      LegalHistoryExtend(p', log, b0, t);
    }
  }

  lemma StepKeepsHistory(ops: seq<Op>, s: State, t: nat, c: Choice, b0: Backend)
    requires Enabled(ops, s, t, c) && HistoryInv(ops, s, b0) && TimeInv(s)
    requires ThreadInv(ops[t], s.threads[t], Before(ops, s, b0, t), s.backend)
    ensures HistoryInv(ops, After(ops, s, t, c), b0)
    ensures var p, p', log' := Carried(ops, s), Carried(ops, After(ops, s, t, c)), After(ops, s, t, c).log;
            forall i :: 0 <= i <= |s.log| ==>
              log'[..i] == s.log[..i] && Replay(p', log'[..i], b0) == Replay(p, s.log[..i], b0)
  {
    var s' := After(ops, s, t, c);
    var effect := TakesEffect(ops[t], s, s.threads[t], c);
    StepKeepsLog(ops, s, t, c);
    StepKeepsWrites(ops, s, t, c);
    if effect {
      EffectStep(ops, s, t, c, Before(ops, s, b0, t));
    } else {
      SilentStep(ops, s, t, c);
    }
    HistoryStep(Carried(ops, s), Carried(ops, s'), s.log, b0, t, effect, s.backend);
  }

  // ------------------------------------------------------------ thread steps

  /** Seen polls that found nothing lead to the next poll. */
  lemma {:induction false} PollsReach(polls: seq<PollReply>, from: nat, upTo: nat, before: seq<Volume>,
                                      after: seq<Volume>, id: string, req: ResizeRequest)
    requires from <= upTo <= |polls| && upTo <= LOOKUP_ATTEMPTS
    requires forall k :: from <= k < upTo ==> polls[k].PollSeen?
    requires from < upTo ==> FindResized(before, after, id, req).None?
    ensures PollOutcome(polls, from, before, after, id, req) == PollOutcome(polls, upTo, before, after, id, req)
    decreases upTo - from
  {
    if from < upTo {
      PollsReach(polls, from + 1, upTo, before, after, id, req);
    }
  }

  /** How one more reply continues a lookup that has seen nothing so far. */
  lemma PollsExtend(polls: seq<PollReply>, poll: PollReply, before: seq<Volume>, after: seq<Volume>, id: string,
                    req: ResizeRequest)
    requires |polls| < LOOKUP_ATTEMPTS && forall k :: 0 <= k < |polls| ==> polls[k].PollSeen?
    requires polls != [] ==> FindResized(before, after, id, req).None?
    ensures var out, found := PollOutcome(polls + [poll], 0, before, after, id, req),
            FindResized(before, after, id, req);
            match poll
            case PollCancelled => out == Failed(Cancelled)
            case PollError => out == Failed(PollFailed)
            case PollSeen =>
              && (found.Some? ==> out == Succeeded(found))
              && (found.None? && |polls| + 1 == LOOKUP_ATTEMPTS ==> out == Failed(LookupExhausted))
  {
    PollsReach(polls + [poll], 0, |polls|, before, after, id, req);
    assert PollAt(polls + [poll], |polls|) == poll;
  }

  lemma PollStep(op: Op, s: State, th: Thread, c: Choice, before: Backend)
    requires th.pc.Polling? && c.PollReplied? && ThreadInv(op, th, before, s.backend)
    ensures ThreadInv(op, NextThread(op, s, th, c), before, s.backend)
  {
    PollsExtend(th.replies.polls, c.poll, th.pc.snapshot, th.replies.put.stored, th.pc.id, op.req);
    assert NextThread(op, s, th, c).replies == th.replies.(polls := th.replies.polls + [c.poll]);
  }

  /** After its step the moving thread knows what its new place requires. */
  lemma OwnStep(ops: seq<Op>, s: State, t: nat, c: Choice, before: Backend)
    requires Enabled(ops, s, t, c) && ThreadInv(ops[t], s.threads[t], before, s.backend)
    ensures var s' := After(ops, s, t, c);
            ThreadInv(ops[t], s'.threads[t], if TakesEffect(ops[t], s, s.threads[t], c) then s.backend
              else before, s'.backend)
  {
    if s.threads[t].pc.Polling? {
      PollStep(ops[t], s, s.threads[t], c, before);
    }
  }

  /** What a thread knows concerns its own server's array only. */
  lemma ThreadFrame(op: Op, th: Thread, before: Backend, b: Backend, b': Backend)
    requires ThreadInv(op, th, before, b)
    requires th.pc.Planned? || th.pc.Polling? ==>
               op.server in b'.arrays && ArrayOf(b', op.server) == ArrayOf(b, op.server)
    ensures ThreadInv(op, th, before, b')
  {
  }

  /** A step writes the array of the moving thread's server alone, between GET and PUT. */
  lemma StepWrites(ops: seq<Op>, s: State, t: nat, c: Choice)
    requires Enabled(ops, s, t, c)
    ensures var b' := After(ops, s, t, c).backend;
            b' == s.backend || (s.threads[t].pc.Planned?
              && b'.arrays == s.backend.arrays[ops[t].server := c.put.stored])
  {
  }

  /** Writing the array of another server does not disturb a thread. */
  lemma OtherStep(ops: seq<Op>, s: State, t: nat, c: Choice, u: nat, before: Backend)
    requires Enabled(ops, s, t, c) && LockInv(LockKeys(ops), s) && u < |ops| && u != t
    requires ThreadInv(ops[u], s.threads[u], before, s.backend)
    ensures ThreadInv(ops[u], s.threads[u], before, After(ops, s, t, c).backend)
  {
    var b' := After(ops, s, t, c).backend;
    StepWrites(ops, s, t, c);
    if b' != s.backend && InsideServer(s.threads[u].pc) && ops[u].server == ops[t].server {
      MutualExclusion(LockKeys(ops), s, t, u);
    }
    ThreadFrame(ops[u], s.threads[u], before, s.backend, b');
  }

  lemma BeforeStep(ops: seq<Op>, s: State, t: nat, c: Choice, b0: Backend, u: nat)
    requires Enabled(ops, s, t, c) && HistoryInv(ops, s, b0) && TimeInv(s) && u < |ops|
    requires HistoryInv(ops, After(ops, s, t, c), b0)
    requires var p, p', log' := Carried(ops, s), Carried(ops, After(ops, s, t, c)), After(ops, s, t, c).log;
             |s.log| <= |log'| && forall i ::
               0 <= i <= |s.log| ==> log'[..i] == s.log[..i] && Replay(p', log'[..i], b0) == Replay(p, s.log[..i], b0)
    ensures Before(ops, After(ops, s, t, c), b0, u)
            == if u == t && TakesEffect(ops[t], s, s.threads[t], c) then s.backend else Before(ops, s, b0, u)
  {
  }

  lemma StepKeepsThreads(ops: seq<Op>, s: State, t: nat, c: Choice, b0: Backend)
    requires Inv(ops, s, b0) && Enabled(ops, s, t, c)
    ensures HistoryInv(ops, After(ops, s, t, c), b0)
    ensures ThreadsInv(ops, After(ops, s, t, c), b0)
  {
    StepKeepsHistory(ops, s, t, c, b0);
    forall u | 0 <= u < |ops|
      ensures ThreadInv(ops[u], After(ops, s, t, c).threads[u], Before(ops, After(ops, s, t, c), b0, u),
              After(ops, s, t, c).backend)
    {
      BeforeStep(ops, s, t, c, b0, u);
      if u == t {
        OwnStep(ops, s, t, c, Before(ops, s, b0, t));
      } else {
        OtherStep(ops, s, t, c, u, Before(ops, s, b0, u));
      }
    }
  }

  lemma StepKeepsInv(ops: seq<Op>, s: State, t: nat, c: Choice, b0: Backend)
    requires Inv(ops, s, b0) && Enabled(ops, s, t, c)
    ensures Inv(ops, After(ops, s, t, c), b0)
  {
    var s' := After(ops, s, t, c);
    StepIsLockStep(ops, s, t, c);
    LockStepKeepsTable(LockKeys(ops), s, s', t);
    LockStepKeepsLocks(LockKeys(ops), s, s', t);
    StepKeepsLog(ops, s, t, c);
    StepKeepsThreads(ops, s, t, c, b0);
  }

  // -------------------------------------------------------------------- runs

  datatype Label = Label(thread: nat, choice: Choice)

  /** A run: every label is a step the machine can take. */
  predicate IsRun(ops: seq<Op>, s: State, run: seq<Label>)
    decreases |run|
  {
    run == [] || (Enabled(ops, s, run[0].thread, run[0].choice)
                  && IsRun(ops, After(ops, s, run[0].thread, run[0].choice), run[1..]))
  }

  function Final(ops: seq<Op>, s: State, run: seq<Label>): State
    requires IsRun(ops, s, run)
    decreases |run|
  {
    if run == [] then s else Final(ops, After(ops, s, run[0].thread, run[0].choice), run[1..])
  }

  lemma InitialInv(ops: seq<Op>, b0: Backend)
    requires Sound(b0)
    ensures Inv(ops, Initial(ops, b0), b0)
  {
  }

  lemma {:induction false} RunKeepsInv(ops: seq<Op>, s: State, run: seq<Label>, b0: Backend)
    requires Inv(ops, s, b0) && IsRun(ops, s, run)
    ensures Inv(ops, Final(ops, s, run), b0)
    decreases |run|
  {
    if run != [] {
      StepKeepsInv(ops, s, run[0].thread, run[0].choice, b0);
      RunKeepsInv(ops, After(ops, s, run[0].thread, run[0].choice), run[1..], b0);
    }
  }
}
