/**
 Any number of threads running Ensure, Expand and Delete at the same time: the
 lock table, the per-server locks and the backend as one step machine.
 */
module ResizeProtocol {
  import opened Text
  import opened Volumes
  import opened ResizeOps
  import opened History

  // ------------------------------------------------------------------- state

  /** Where a thread stands; locks are numbered in the order the table created them. */
  datatype Pc =
    | Idle
    | WantTable
    | InTable
    | LeaveTable(lock: nat)
    | WantServer(lock: nat)
    | Entered(lock: nat)
    | Planned(lock: nat, snapshot: seq<Volume>, next: seq<Volume>, id: string)
    | Polling(lock: nat, snapshot: seq<Volume>, id: string)
    | Leaving(lock: nat, outcome: Outcome)
    | Finished(outcome: Outcome)

  /**
   A thread, the replies it received so far, and when it started, took effect and
   finished, counted in log entries.
   */
  datatype Thread = Thread(pc: Pc, replies: Replies, started: nat, at: nat, finished: nat)

  datatype State = State(
    threads: seq<Thread>,
    tableHolder: Option<nat>,
    table: map<string, nat>,
    held: map<nat, nat>,
    backend: Backend,
    log: seq<nat>)

  /** What the environment contributes to a step. */
  datatype Choice = Silent | GetReplied(ok: bool) | PutReplied(put: PutReply) | PollReplied(poll: PollReply)

  function LockKey(op: Op): string {
    Trim(op.server)
  }

  predicate InsideTable(pc: Pc) {
    pc.InTable? || pc.LeaveTable?
  }

  predicate InsideServer(pc: Pc) {
    pc.Entered? || pc.Planned? || pc.Polling? || pc.Leaving?
  }

  predicate KnowsLock(pc: Pc) {
    pc.LeaveTable? || pc.WantServer? || InsideServer(pc)
  }

  function LockOf(pc: Pc): Option<nat> {
    if KnowsLock(pc) then Some(pc.lock) else None
  }

  /** The thread's operation has taken effect. */
  predicate Logged(pc: Pc) {
    pc.Polling? || pc.Leaving? || pc.Finished?
  }

  function Initial(ops: seq<Op>, b0: Backend): State {
    State(seq(|ops|, _ => Thread(Idle, Replies(false, Refused, []), 0, 0, 0)), None, map[], map[], b0, [])
  }

  // ------------------------------------------------------------------- steps

  /** May thread t take its next step with this contribution of the environment? */
  predicate Enabled(ops: seq<Op>, s: State, t: nat, c: Choice) {
    && t < |s.threads| == |ops|
    && match s.threads[t].pc
       case Idle => c.Silent?
       case WantTable => c.Silent? && s.tableHolder.None?
       case InTable => c.Silent?
       case LeaveTable(_) => c.Silent?
       case WantServer(lock) => c.Silent? && lock !in s.held
       case Entered(_) => c.GetReplied? && (c.ok ==> ops[t].server in s.backend.arrays)
       case Planned(_, _, next, _) =>
         c.PutReplied?
         && (c.put.Refused?
             || Replaces(ArrayOf(s.backend, ops[t].server), next, c.put.stored, s.backend.used, RequestedNames(ops)))
       case Polling(_, _, _) => c.PollReplied? && (c.poll.PollCancelled? ==> s.threads[t].replies.polls != [])
       case Leaving(_, _) => c.Silent?
       case Finished(_) => false
  }

  function AfterGet(op: Op, s: State, th: Thread, ok: bool): Pc
    requires th.pc.Entered?
  {
    var snapshot := ArrayOf(s.backend, op.server);
    if !ok then Leaving(th.pc.lock, Failed(GetFailed))
    else
      match PlanFor(op, snapshot)
      case Answer(outcome) => Leaving(th.pc.lock, outcome)
      case Write(next, id) => Planned(th.pc.lock, snapshot, next, id)
  }

  function AfterPut(op: Op, th: Thread, put: PutReply): Pc
    requires th.pc.Planned?
  {
    if !put.Applied? then Leaving(th.pc.lock, Failed(PutFailed))
    else if op.Delete? then Leaving(th.pc.lock, Succeeded(None))
    else Polling(th.pc.lock, th.pc.snapshot, th.pc.id)
  }

  function AfterPoll(op: Op, s: State, th: Thread, poll: PollReply): Pc
    requires th.pc.Polling?
  {
    match poll
    case PollCancelled => Leaving(th.pc.lock, Failed(Cancelled))
    case PollError => Leaving(th.pc.lock, Failed(PollFailed))
    case PollSeen =>
      if op.Delete? then th.pc
      else
        var found := FindResized(th.pc.snapshot, ArrayOf(s.backend, op.server), th.pc.id, op.req);
        if found.Some? then Leaving(th.pc.lock, Succeeded(found))
        else if |th.replies.polls| + 1 >= LOOKUP_ATTEMPTS then Leaving(th.pc.lock, Failed(LookupExhausted))
        else th.pc
  }

  /** A lookup whose poll shows no such volume goes on, or gives up exactly at the sixth poll. */
  lemma GivesUpAtSixth(op: Op, s: State, th: Thread)
    requires th.pc.Polling? && !op.Delete?
    requires FindResized(th.pc.snapshot, ArrayOf(s.backend, op.server), th.pc.id, op.req).None?
    ensures var pc := AfterPoll(op, s, th, PollSeen);
            if |th.replies.polls| < 5 then pc == th.pc else pc == Leaving(th.pc.lock, Failed(LookupExhausted))
  {
  }

  /** The lock the table gives for a server: the one it has, or a new one. */
  function LockFor(s: State, key: string): nat {
    if key in s.table then s.table[key] else |s.table|
  }

  function NextPc(op: Op, s: State, th: Thread, c: Choice): Pc {
    match th.pc
    case Idle => if Accepted(op) then WantTable else Finished(Failed(InvalidRequest))
    case WantTable => InTable
    case InTable => LeaveTable(LockFor(s, LockKey(op)))
    case LeaveTable(lock) => WantServer(lock)
    case WantServer(lock) => Entered(lock)
    case Entered(_) => AfterGet(op, s, th, c.GetReplied? && c.ok)
    case Planned(_, _, _, _) => AfterPut(op, th, if c.PutReplied? then c.put else Refused)
    case Polling(_, _, _) => AfterPoll(op, s, th, if c.PollReplied? then c.poll else PollError)
    case Leaving(_, outcome) => Finished(outcome)
    case Finished(_) => th.pc
  }

  function NextReplies(r: Replies, c: Choice): Replies {
    match c
    case Silent => r
    case GetReplied(ok) => r.(getOk := ok)
    case PutReplied(put) => r.(put := put)
    case PollReplied(poll) => r.(polls := r.polls + [poll])
  }

  /** The operation takes effect with this step. */
  predicate TakesEffect(op: Op, s: State, th: Thread, c: Choice) {
    !Logged(th.pc) && Logged(NextPc(op, s, th, c))
  }

  function NextThread(op: Op, s: State, th: Thread, c: Choice): Thread {
    var pc := NextPc(op, s, th, c);
    var effect := TakesEffect(op, s, th, c);
    Thread(pc, NextReplies(th.replies, c),
           if th.pc.Idle? then |s.log| else th.started,
           if effect then |s.log| else th.at,
           if pc.Finished? then (if effect then |s.log| + 1 else |s.log|) else th.finished)
  }

  function NextBackend(op: Op, s: State, th: Thread, c: Choice): Backend {
    if th.pc.Planned? && c.PutReplied? && !c.put.Refused? then Stored(s.backend, op.server, c.put.stored) else s.backend
  }

  function After(ops: seq<Op>, s: State, t: nat, c: Choice): State
    requires Enabled(ops, s, t, c)
  {
    var th, op := s.threads[t], ops[t];
    State(
      s.threads[t := NextThread(op, s, th, c)],
      if th.pc.WantTable? then Some(t) else if th.pc.LeaveTable? then None else s.tableHolder,
      if th.pc.InTable? then s.table[LockKey(op) := LockFor(s, LockKey(op))] else s.table,
      if th.pc.WantServer? then s.held[th.pc.lock := t] else if th.pc.Leaving? then s.held - {th.pc.lock} else s.held,
      NextBackend(op, s, th, c),
      if TakesEffect(op, s, th, c) then s.log + [t] else s.log)
  }

  // ---------------------------------------------------------- lock invariant

  /** The key under which each thread looks up its lock. */
  function LockKeys(ops: seq<Op>): (keys: seq<string>)
    ensures |keys| == |ops| && forall t :: 0 <= t < |ops| ==> keys[t] == LockKey(ops[t])
  {
    seq(|ops|, t requires 0 <= t < |ops| => LockKey(ops[t]))
  }

  predicate TableInv(s: State) {
    && (forall t :: 0 <= t < |s.threads| ==> (InsideTable(s.threads[t].pc) <==> s.tableHolder == Some(t)))
    && (s.tableHolder.Some? ==> s.tableHolder.value < |s.threads|)
    && (forall k :: k in s.table ==> s.table[k] < |s.table|)
    && (forall k, l :: k in s.table && l in s.table && s.table[k] == s.table[l] ==> k == l)
  }

  /** A thread knows the lock of its own server, and holds it while it is inside. */
  predicate ThreadLocks(s: State, key: string, t: nat, pc: Pc) {
    && (KnowsLock(pc) ==> key in s.table && s.table[key] == pc.lock)
    && (InsideServer(pc) ==> pc.lock in s.held && s.held[pc.lock] == t)
  }

  predicate HeldBy(s: State, lock: nat, t: nat) {
    t < |s.threads| && InsideServer(s.threads[t].pc) && s.threads[t].pc.lock == lock
  }

  predicate LockInv(keys: seq<string>, s: State) {
    && |s.threads| == |keys|
    && (forall t :: 0 <= t < |keys| ==> ThreadLocks(s, keys[t], t, s.threads[t].pc))
    && (forall l :: l in s.held ==> HeldBy(s, l, s.held[l]))
  }

  /** At most one thread is inside the critical section of a server. */
  lemma MutualExclusion(keys: seq<string>, s: State, t: nat, u: nat)
    requires LockInv(keys, s) && t < |keys| && u < |keys|
    requires InsideServer(s.threads[t].pc) && InsideServer(s.threads[u].pc)
    requires keys[t] == keys[u]
    ensures t == u
  {
  }

  /** How a step moves a thread through the locks, whatever the backend says. */
  lemma NextPcPath(op: Op, s: State, th: Thread, c: Choice)
    ensures var pc := NextPc(op, s, th, c);
            match th.pc
            case Idle => pc.WantTable? || pc.Finished?
            case WantTable => pc.InTable?
            case InTable => pc == LeaveTable(LockFor(s, LockKey(op)))
            case LeaveTable(lock) => pc == WantServer(lock)
            case WantServer(lock) => pc == Entered(lock)
            case Entered(lock) => InsideServer(pc) && pc.lock == lock
            case Planned(lock, _, _, _) => InsideServer(pc) && pc.lock == lock
            case Polling(lock, _, _) => InsideServer(pc) && pc.lock == lock
            case Leaving(_, outcome) => pc == Finished(outcome)
            case Finished(_) => pc == th.pc
  {
  }

  /** The lock part of a step, with the operation's work left out. */
  predicate LockStep(keys: seq<string>, s: State, s': State, t: nat) {
    && t < |s.threads| == |keys| == |s'.threads|
    && (forall u :: 0 <= u < |keys| && u != t ==> s'.threads[u].pc == s.threads[u].pc)
    && var pc, pc' := s.threads[t].pc, s'.threads[t].pc;
       match pc
       case WantTable => pc'.InTable? && s.tableHolder.None? && s'.tableHolder == Some(t) && s'.table == s.table
         && s'.held == s.held
       case InTable =>
         var lock := LockFor(s, keys[t]);
         pc' == LeaveTable(lock) && s'.table == s.table[keys[t] := lock] && s'.tableHolder == s.tableHolder
           && s'.held == s.held
       case LeaveTable(lock) => pc' == WantServer(lock) && s'.tableHolder == None && s'.table == s.table
         && s'.held == s.held
       case WantServer(lock) =>
         pc' == Entered(lock) && lock !in s.held && s'.held == s.held[lock := t]
         && s'.tableHolder == s.tableHolder && s'.table == s.table
       case Leaving(lock, _) =>
         pc'.Finished? && s'.held == s.held - {lock} && s'.tableHolder == s.tableHolder && s'.table == s.table
       case _ =>
         && s'.tableHolder == s.tableHolder && s'.table == s.table && s'.held == s.held
         && LockOf(pc') == LockOf(pc) && (InsideServer(pc) <==> InsideServer(pc')) && !InsideTable(pc')
  }

  lemma StepIsLockStep(ops: seq<Op>, s: State, t: nat, c: Choice)
    requires Enabled(ops, s, t, c)
    ensures LockStep(LockKeys(ops), s, After(ops, s, t, c), t)
  {
    NextPcPath(ops[t], s, s.threads[t], c);
  }

  /** The table only grows, and a server keeps its lock for ever. */
  lemma TableGrows(keys: seq<string>, s: State, s': State, t: nat)
    requires LockStep(keys, s, s', t)
    ensures s.table.Keys <= s'.table.Keys && forall k :: k in s.table ==> s'.table[k] == s.table[k]
    ensures |s.table| <= |s'.table|
  {
  }

  lemma LockStepKeepsTable(keys: seq<string>, s: State, s': State, t: nat)
    requires TableInv(s) && LockStep(keys, s, s', t)
    ensures TableInv(s')
  {
  }

  lemma OwnLocks(keys: seq<string>, s: State, s': State, t: nat)
    requires LockInv(keys, s) && LockStep(keys, s, s', t)
    ensures ThreadLocks(s', keys[t], t, s'.threads[t].pc)
  {
  }

  lemma OtherLocks(keys: seq<string>, s: State, s': State, t: nat, u: nat)
    requires LockInv(keys, s) && LockStep(keys, s, s', t) && u < |keys| && u != t
    ensures ThreadLocks(s', keys[u], u, s'.threads[u].pc)
  {
  }

  lemma HeldLocks(keys: seq<string>, s: State, s': State, t: nat, l: nat)
    requires LockInv(keys, s) && LockStep(keys, s, s', t) && l in s'.held
    ensures HeldBy(s', l, s'.held[l])
  {
  }

  lemma LockStepKeepsLocks(keys: seq<string>, s: State, s': State, t: nat)
    requires LockInv(keys, s) && LockStep(keys, s, s', t)
    ensures LockInv(keys, s')
  {
    forall u | 0 <= u < |keys| ensures ThreadLocks(s', keys[u], u, s'.threads[u].pc) {
      if u == t {
        OwnLocks(keys, s, s', t);
      } else {
        OtherLocks(keys, s, s', t, u);
      }
    }
    forall l | l in s'.held ensures HeldBy(s', l, s'.held[l]) {
      HeldLocks(keys, s, s', t, l);
    }
  }
}
