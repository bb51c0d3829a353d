/** A burst of requests on a dead host: however the tasks interleave, the client moves at most
    once, and to the first host in cyclic order that answers. */
module Burst {
  import opened Wrappers
  import opened Protocol
  import opened HostSafety
  import opened Moves

  // ---- where a walk ends ---------------------------------------------------------------------------

  /** The first answering host a walk from `start` finds at `offset` or later. */
  function FirstAnswer(hosts: Hosts, start: nat, offset: nat, answering: set<Host>): Option<nat>
    decreases |hosts| - offset
  {
    if offset >= |hosts| then None
    else
      var i := (start + offset) % |hosts|;
      if hosts[i] in answering then Some(i) else FirstAnswer(hosts, start, offset + 1, answering)
  }

  /** Where a failed request takes the client: nowhere if the host answers after all. */
  function Target(hosts: Hosts, start: nat, answering: set<Host>): Option<nat>
    requires start < |hosts|
  {
    if hosts[start] in answering then None else FirstAnswer(hosts, start, 1, answering)
  }

  /** The offset at which a walk from `start` over `n` hosts comes by host `i`. */
  function OffsetOf(start: nat, i: nat, n: nat): (offset: nat)
    requires start < n && i < n && i != start
    ensures 1 <= offset < n
  {
    if i > start then i - start else i + n - start
  }

  /** A walk passes every host but the one it starts from, and each only once. */
  lemma WalkVisitsEachOnce(start: nat, i: nat, n: nat, offset: nat)
    requires start < n && i < n && i != start && 1 <= offset < n
    ensures (start + offset) % n == i <==> offset == OffsetOf(start, i, n)
  {
    ModOnce(start + offset, n);
  }

  /** What the search means: the answering host is met first, or there is none to meet. */
  lemma {:induction false} FirstAnswerMeaning(hosts: Hosts, start: nat, offset: nat, answering: set<Host>)
    requires start < |hosts| && 1 <= offset
    ensures match FirstAnswer(hosts, start, offset, answering)
            case Some(i) =>
              && i < |hosts| && i != start && hosts[i] in answering
              && offset <= OffsetOf(start, i, |hosts|)
              && forall j :: 0 <= j < |hosts| && j != start && offset <= OffsetOf(start, j, |hosts|) < OffsetOf(start, i, |hosts|)
                       ==> hosts[j] !in answering
            case None =>
              forall j :: 0 <= j < |hosts| && j != start && offset <= OffsetOf(start, j, |hosts|) ==> hosts[j] !in answering
    decreases |hosts| - offset
  {
    var n := |hosts|;
    if offset >= n {
    } else {
      ModIsOther(start, offset, n);
      var i := (start + offset) % n;
      WalkVisitsEachOnce(start, i, n, offset);
      forall j | 0 <= j < n && j != start && OffsetOf(start, j, n) == offset
        ensures j == i
      {
        WalkVisitsEachOnce(start, j, n, offset);
      }
      if hosts[i] !in answering {
        FirstAnswerMeaning(hosts, start, offset + 1, answering);
      }
    }
  }

  // ---- the steps considered ------------------------------------------------------------------------

  /** A fixed set of hosts answers; no host is learnt, nobody calls `failover` directly, logins reach
      the host, and no walk is torn down.  New requests may begin, tickets may be renewed, and a task
      may be cancelled while it waits for the lock, asks the host in use, or has left `failover`. */
  predicate Steady(st: State, a: Action, answering: set<Host>) {
    match a
    case LearnHosts(_, _) => false
    case CallFailover(_, _, _) => false
    case Deliver(t, reply) =>
      t in st.tasks && st.tasks[t].flight.Some? ==>
        var flight := st.tasks[t].flight.value;
        (match flight.call
         case Probe(_) =>
           if reply.Aborted? then st.tasks[t].pc.Asking?
           else reply.Answered? <==> flight.url.Base? && flight.url.host in answering
         case Data(_, _) => true
         case _ => !reply.Unreachable?)
    case _ => true
  }

  predicate FromRequest(pc: Pc) {
    pc.WantSwitch? || Holds(pc) ==> pc.cause.RequestFailed?
  }

  /** What one task inside `failover` has established. */
  predicate Progress(sh: Shared, pc: Pc, p: nat, answering: set<Host>)
    requires p < |sh.hosts|
  {
    match pc
    case Asking(start, _) => start == sh.index && (start == p || Target(sh.hosts, p, answering) == Some(start))
    case Walking(start, offset, limit, _) =>
      && start == p && limit == |sh.hosts| && 1 <= offset < limit && sh.index == (p + offset) % |sh.hosts|
      && sh.hosts[p] !in answering
      && FirstAnswer(sh.hosts, p, 1, answering) == FirstAnswer(sh.hosts, p, offset, answering)
    case _ => sh.index == p || Target(sh.hosts, p, answering) == Some(sh.index)
  }

  ghost predicate BurstInv(cfg: Config, st: State, hosts: Hosts, p: nat, answering: set<Host>)
    requires p < |hosts|
  {
    && Safe(cfg, st)
    && st.sh.hosts == hosts
    && (forall t :: t in st.tasks ==> FromRequest(st.tasks[t].pc) && Shaped(st.tasks[t].pc, st.tasks[t].flight))
    && (if st.lock.Some? then Progress(st.sh, st.tasks[st.lock.value].pc, p, answering)
        else st.sh.index == p || Target(hosts, p, answering) == Some(st.sh.index))
  }

  // ---- one task ---------------------------------------------------------------------------------------

  lemma OutsideSteady(cfg: Config, sh: Shared, pc: Pc, reply: Reply, now: real)
    requires !Holds(pc) && FromRequest(pc) && (pc.LoggingIn? ==> !reply.Unreachable?)
    ensures FromRequest(Resume(cfg, sh, pc, reply, now).pc)
  {
  }

  /** Where the walk stands after the question at `start`, or after one more silent candidate. */
  lemma WalkOnSteady(cfg: Config, sh: Shared, p: nat, offset: nat, cause: Cause, answering: set<Host>, now: real)
    requires p < |sh.hosts| && 1 <= offset <= |sh.hosts| && cause.RequestFailed? && sh.hosts[p] !in answering
    requires FirstAnswer(sh.hosts, p, 1, answering) == FirstAnswer(sh.hosts, p, offset, answering)
    ensures var next := WalkOn(cfg, sh, p, offset, |sh.hosts|, cause, now);
      && next.sh.hosts == sh.hosts && Progress(next.sh, next.pc, p, answering) && FromRequest(next.pc)
      && (if next.pc.Walking? then next.pc.cause == cause
          else next.pc == Done(Raised(Connection)) && next.sh.index == p && Target(sh.hosts, p, answering).None?)
  {
    if offset < |sh.hosts| {
      ModIsOther(p, offset, |sh.hosts|);
    }
  }

  /** What a task of the burst that was inside `failover` does next. */
  predicate Heeds(sh: Shared, pc: Pc, next: Next, p: nat, answering: set<Host>)
    requires p < |sh.hosts| && Holds(pc)
    requires pc.Asking? ==> pc.start < |sh.hosts|
  {
    var target := Target(sh.hosts, p, answering);
    && next.sh.hosts == sh.hosts && Progress(next.sh, next.pc, p, answering) && FromRequest(next.pc)
    && (if Holds(next.pc) then next.pc.Walking? && next.pc.cause == pc.cause && (pc.Asking? ==> pc.start == p)
        else if next.pc == Repeating then
          target == Some(next.sh.index) && next.flight.Some? && next.flight.value.url == next.sh.baseUrl
        else if next.pc == Done(Raised(OtherFault)) then
          pc.Asking? && next.sh == sh
        else
          && next.pc == Done(Raised(Connection))
          && next.sh.index == (if pc.Asking? then pc.start else p)
          && ((pc.Asking? && sh.hosts[pc.start] in answering) || target.None?))
  }

  lemma AskingHears(cfg: Config, sh: Shared, pc: Pc, reply: Reply, p: nat, answering: set<Host>, now: real)
    requires p < |sh.hosts| && pc.Asking? && FromRequest(pc) && HostsOk(cfg, sh) && Progress(sh, pc, p, answering)
    requires reply.Answered? || reply.Unreachable? || reply.Broken? || reply.Aborted?
    requires reply.Aborted? || (reply.Answered? <==> Current(sh) in answering)
    ensures var next := Resume(cfg, sh, pc, reply, now);
      Heeds(sh, pc, next, p, answering) && (reply.Aborted? <==> next.pc == Done(Raised(OtherFault)))
  {
    if reply.Answered? {
      assert Hear(sh, reply) == Yes;
    } else if reply.Aborted? {
      AbortedProbe(cfg, sh, pc, now);
    } else {
      FirstAnswerMeaning(sh.hosts, p, 1, answering);
      assert Hear(sh, reply) == No && pc.start == p;
      WalkOnSteady(cfg, sh, p, 1, pc.cause, answering, now);
    }
  }

  lemma WalkingHears(cfg: Config, sh: Shared, pc: Pc, reply: Reply, p: nat, answering: set<Host>, now: real)
    requires p < |sh.hosts| && pc.Walking? && FromRequest(pc) && HostsOk(cfg, sh) && Progress(sh, pc, p, answering)
    requires reply.Answered? || reply.Unreachable? || reply.Broken?
    requires reply.Answered? <==> Current(sh) in answering
    ensures Heeds(sh, pc, Resume(cfg, sh, pc, reply, now), p, answering)
  {
    assert Hear(sh, reply) == if reply.Answered? then Yes else No;
    if reply.Answered? {
      CandidateAnswers(cfg, sh, pc, p, answering, now);
    } else {
      assert FirstAnswer(sh.hosts, p, 1, answering) == FirstAnswer(sh.hosts, p, pc.offset + 1, answering);
      WalkOnSteady(cfg, sh, p, pc.offset + 1, pc.cause, answering, now);
    }
  }

  lemma CandidateAnswers(cfg: Config, sh: Shared, pc: Pc, p: nat, answering: set<Host>, now: real)
    requires p < |sh.hosts| && pc.Walking? && FromRequest(pc) && HostsOk(cfg, sh) && Progress(sh, pc, p, answering)
    requires Current(sh) in answering
    ensures Heeds(sh, pc, OnWalked(cfg, sh, pc.start, pc.offset, pc.limit, pc.cause, Yes, now), p, answering)
  {
    assert FirstAnswer(sh.hosts, p, pc.offset, answering) == Some(sh.index);
    assert OnWalked(cfg, sh, pc.start, pc.offset, pc.limit, pc.cause, Yes, now) == SendAgain(cfg, sh);
  }

  /** A task inside `failover` hears the host in use. */
  lemma InsideSteady(cfg: Config, sh: Shared, pc: Pc, reply: Reply, p: nat, answering: set<Host>, now: real)
    requires p < |sh.hosts| && Holds(pc) && FromRequest(pc) && HostsOk(cfg, sh) && Progress(sh, pc, p, answering)
    requires reply.Answered? || reply.Unreachable? || reply.Broken? || (reply.Aborted? && pc.Asking?)
    requires reply.Aborted? || (reply.Answered? <==> Current(sh) in answering)
    ensures var next := Resume(cfg, sh, pc, reply, now);
      Heeds(sh, pc, next, p, answering) && (next.pc == Done(Raised(OtherFault)) ==> reply.Aborted?)
  {
    if pc.Asking? {
      AskingHears(cfg, sh, pc, reply, p, answering, now);
    } else {
      WalkingHears(cfg, sh, pc, reply, p, answering, now);
    }
  }

  // ---- all tasks --------------------------------------------------------------------------------------

  /** A step in the burst: either nothing changes for the client, or it moves to the target. */
  predicate MovesForward(before: nat, after: nat, hosts: Hosts, p: nat, answering: set<Host>)
    requires p < |hosts|
  {
    after == before || (before == p && Target(hosts, p, answering) == Some(after))
  }

  lemma BurstStep(cfg: Config, st: State, a: Action, hosts: Hosts, p: nat, answering: set<Host>)
    requires p < |hosts| && BurstInv(cfg, st, hosts, p, answering)
    requires Enabled(cfg, st, a) && Steady(st, a, answering)
    ensures var after := Perform(cfg, st, a);
      BurstInv(cfg, after, hosts, p, answering) && MovesForward(HomeIndex(st), HomeIndex(after), hosts, p, answering)
  {
    PerformSafe(cfg, st, a);
    match a {
      case Tick(_) =>
      case Begin(t) => PerformShaped(cfg, st, a, t);
      case CallLogin(t) => PerformShaped(cfg, st, a, t);
      case Acquire(t) => BurstEnters(cfg, st, t, hosts, p, answering);
      case Deliver(t, reply) => BurstDeliver(cfg, st, t, reply, hosts, p, answering);
    }
  }

  lemma BurstEnters(cfg: Config, st: State, t: TaskId, hosts: Hosts, p: nat, answering: set<Host>)
    requires p < |hosts| && BurstInv(cfg, st, hosts, p, answering) && Enabled(cfg, st, Acquire(t))
    ensures var after := Perform(cfg, st, Acquire(t));
      BurstInv(cfg, after, hosts, p, answering) && MovesForward(HomeIndex(st), HomeIndex(after), hosts, p, answering)
  {
    PerformSafe(cfg, st, Acquire(t));
    PerformShaped(cfg, st, Acquire(t), t);
  }

  lemma BurstDeliver(cfg: Config, st: State, t: TaskId, reply: Reply, hosts: Hosts, p: nat, answering: set<Host>)
    requires p < |hosts| && BurstInv(cfg, st, hosts, p, answering)
    requires Enabled(cfg, st, Deliver(t, reply)) && Steady(st, Deliver(t, reply), answering)
    ensures var after := Perform(cfg, st, Deliver(t, reply));
      BurstInv(cfg, after, hosts, p, answering) && MovesForward(HomeIndex(st), HomeIndex(after), hosts, p, answering)
  {
    var pc := st.tasks[t].pc;
    PerformSafe(cfg, st, Deliver(t, reply));
    ResumeShaped(cfg, st.sh, pc, reply, st.now);
    if Holds(pc) {
      InsideSteady(cfg, st.sh, pc, reply, p, answering, st.now);
      ApplyInside(cfg, Noted(st, t, reply), t, Resume(cfg, st.sh, pc, reply, st.now), hosts, p, answering);
    } else {
      OutsideSteady(cfg, st.sh, pc, reply, st.now);
      OutsideFailover(cfg, st.sh, pc, reply, st.now);
      ApplyOutside(cfg, Noted(st, t, reply), t, Resume(cfg, st.sh, pc, reply, st.now), hosts, p, answering);
    }
  }

  lemma ApplyOutside(cfg: Config, st: State, t: TaskId, next: Next, hosts: Hosts, p: nat, answering: set<Host>)
    requires p < |hosts| && BurstInv(cfg, st, hosts, p, answering)
    requires t in st.tasks && !Holds(st.tasks[t].pc) && !Holds(next.pc) && SameHosts(next.sh, st.sh)
    requires FromRequest(next.pc) && Shaped(next.pc, next.flight)
    requires Safe(cfg, Apply(st, t, next))
    ensures BurstInv(cfg, Apply(st, t, next), hosts, p, answering)
    ensures HomeIndex(st) == HomeIndex(Apply(st, t, next))
  {
    assert st.lock != Some(t);
  }

  lemma ApplyInside(cfg: Config, st: State, t: TaskId, next: Next, hosts: Hosts, p: nat, answering: set<Host>)
    requires p < |hosts| && BurstInv(cfg, st, hosts, p, answering)
    requires t in st.tasks && Holds(st.tasks[t].pc)
    requires Heeds(st.sh, st.tasks[t].pc, next, p, answering) && Shaped(next.pc, next.flight)
    requires Safe(cfg, Apply(st, t, next))
    ensures BurstInv(cfg, Apply(st, t, next), hosts, p, answering)
    ensures MovesForward(HomeIndex(st), HomeIndex(Apply(st, t, next)), hosts, p, answering)
  {
    var after := Apply(st, t, next);
    assert after.lock == if Holds(next.pc) then Some(t) else None;
  }

  ghost predicate SteadyRun(cfg: Config, r: Run, hosts: Hosts, p: nat, answering: set<Host>) {
    && IsRun(cfg, r)
    && p < |hosts|
    && BurstInv(cfg, r.states[0], hosts, p, answering)
    && r.states[0].lock.None? && r.states[0].sh.index == p
    && forall i {:trigger r.acts[i]} :: 0 <= i < |r.acts| ==> Steady(r.states[i], r.acts[i], answering)
  }

  lemma {:induction false} BurstStays(cfg: Config, r: Run, hosts: Hosts, p: nat, answering: set<Host>, i: nat)
    requires SteadyRun(cfg, r, hosts, p, answering) && i < |r.states|
    ensures BurstInv(cfg, r.states[i], hosts, p, answering)
    ensures i > 0 ==> MovesForward(HomeIndex(r.states[i - 1]), HomeIndex(r.states[i]), hosts, p, answering)
  {
    if i == 0 {
    } else {
      var st, a := r.states[i - 1], r.acts[i - 1];
      BurstStays(cfg, r, hosts, p, answering, i - 1);
      BurstStep(cfg, st, a, hosts, p, answering);
    }
  }

  predicate FromOrTo(index: nat, hosts: Hosts, p: nat, answering: set<Host>)
    requires p < |hosts|
  {
    index == p || Target(hosts, p, answering) == Some(index)
  }

  lemma HomeInBurst(cfg: Config, st: State, hosts: Hosts, p: nat, answering: set<Host>)
    requires p < |hosts| && BurstInv(cfg, st, hosts, p, answering)
    ensures FromOrTo(HomeIndex(st), hosts, p, answering)
  {
  }

  /** Who moves forward twice has moved once: the target is not the host it left. */
  lemma ForwardOnce(before: nat, between: nat, after: nat, hosts: Hosts, p: nat, answering: set<Host>)
    requires p < |hosts|
    requires MovesForward(before, between, hosts, p, answering) && MovesForward(between, after, hosts, p, answering)
    ensures MovesForward(before, after, hosts, p, answering)
  {
    FirstAnswerMeaning(hosts, p, 1, answering);
  }

  /** Burst safety: the client leaves its host at most once, and if so for the first host in cyclic
      order that answers; it never comes back, and it stays if its host answers or nobody does. */
  lemma {:induction false} MovesAtMostOnce(cfg: Config, r: Run, hosts: Hosts, p: nat, answering: set<Host>, i: nat, j: nat)
    requires SteadyRun(cfg, r, hosts, p, answering) && i <= j < |r.states|
    ensures FromOrTo(HomeIndex(r.states[i]), hosts, p, answering)
    ensures MovesForward(HomeIndex(r.states[i]), HomeIndex(r.states[j]), hosts, p, answering)
    decreases j
  {
    var from, to := r.states[i], r.states[j];
    BurstStays(cfg, r, hosts, p, answering, j);
    if i == j {
      HomeInBurst(cfg, from, hosts, p, answering);
    } else {
      MovesAtMostOnce(cfg, r, hosts, p, answering, i, j - 1);
      ForwardOnce(HomeIndex(from), HomeIndex(r.states[j - 1]), HomeIndex(to), hosts, p, answering);
    }
  }

  // ---- what becomes of the requests of the burst --------------------------------------------------------

  /** The request was sent again, to the host at `i`. */
  ghost predicate RepeatedOn(log: seq<Event>, from: nat, t: TaskId, h: Host) {
    exists k :: from <= k < |log| && log[k].Sent? && log[k].task == t && log[k].url == Base(h)
                && log[k].call.Data? && log[k].call.before.None?
  }

  /** A request of the burst waits, asks or walks, or was repeated on the target - or it failed for
      want of one, or was cancelled. */
  ghost predicate BurstTask(st: State, t: TaskId, hosts: Hosts, p: nat, answering: set<Host>, from: nat)
    requires p < |hosts|
  {
    var target := Target(hosts, p, answering);
    && t in st.tasks
    && match st.tasks[t].pc
       case WantSwitch(cause) => cause == RequestFailed(hosts[p])
       case Asking(start, cause) => cause == RequestFailed(hosts[p]) && start == p
       case Walking(_, _, _, cause) => cause == RequestFailed(hosts[p])
       case Repeating => target.Some? && target.value < |hosts| && RepeatedOn(st.log, from, t, hosts[target.value])
       case Done(outcome) =>
         || (target.Some? && target.value < |hosts| && RepeatedOn(st.log, from, t, hosts[target.value]))
         || (target.None? && outcome == Raised(Connection))
         || (outcome == Raised(OtherFault) && CutShort(st.log, from, t))
       case _ => false
  }

  /** The task was cancelled while it waited for the lock, or what it waited for ended in an exception. */
  ghost predicate CutShort(log: seq<Event>, from: nat, t: TaskId) {
    exists k :: from <= k < |log| && !log[k].Sent? && log[k].task == t && (log[k].Got? ==> log[k].reply.Aborted?)
  }

  lemma CutShortLater(log: seq<Event>, longer: seq<Event>, from: nat, t: TaskId)
    requires log <= longer && CutShort(log, from, t)
    ensures CutShort(longer, from, t)
  {
    var k :| from <= k < |log| && !log[k].Sent? && log[k].task == t && (log[k].Got? ==> log[k].reply.Aborted?);
    assert longer[k] == log[k];
  }

  lemma JustCutShort(cfg: Config, st: State, t: TaskId, from: nat)
    requires Enabled(cfg, st, Deliver(t, Aborted)) && from <= |st.log|
    ensures CutShort(Perform(cfg, st, Deliver(t, Aborted)).log, from, t)
  {
    assert Perform(cfg, st, Deliver(t, Aborted)).log[|st.log|] == Note(t, st.tasks[t].flight, Aborted);
  }

  lemma RepeatedLater(log: seq<Event>, longer: seq<Event>, from: nat, t: TaskId, h: Host)
    requires log <= longer && RepeatedOn(log, from, t, h)
    ensures RepeatedOn(longer, from, t, h)
  {
    var k :| from <= k < |log| && log[k].Sent? && log[k].task == t && log[k].url == Base(h)
             && log[k].call.Data? && log[k].call.before.None?;
    assert longer[k] == log[k];
  }

  lemma BurstTaskStep(cfg: Config, st: State, a: Action, t: TaskId, hosts: Hosts, p: nat, answering: set<Host>, from: nat)
    requires p < |hosts| && BurstInv(cfg, st, hosts, p, answering) && from <= |st.log|
    requires Enabled(cfg, st, a) && Steady(st, a, answering)
    requires BurstTask(st, t, hosts, p, answering, from)
    ensures BurstTask(Perform(cfg, st, a), t, hosts, p, answering, from)
  {
    var after := Perform(cfg, st, a);
    var target := Target(hosts, p, answering);
    FirstAnswerMeaning(hosts, p, 1, answering);
    PerformLogs(cfg, st, a);
    if target.Some? && RepeatedOn(st.log, from, t, hosts[target.value]) {
      RepeatedLater(st.log, after.log, from, t, hosts[target.value]);
    }
    if CutShort(st.log, from, t) {
      CutShortLater(st.log, after.log, from, t);
    }
    if a == Acquire(t) {
      BurstAcquire(cfg, st, t, hosts, p, answering, from);
    } else if a.Deliver? && a.task == t {
      BurstTaskDeliver(cfg, st, t, a.reply, hosts, p, answering, from);
    } else {
      assert after.tasks[t] == st.tasks[t];
    }
  }

  lemma LastSentRepeats(log: seq<Event>, e: Event, from: nat, t: TaskId, h: Host)
    requires from <= |log| && e.Sent? && e.task == t && e.url == Base(h) && e.call.Data? && e.call.before.None?
    ensures RepeatedOn(log + [e], from, t, h)
  {
    assert (log + [e])[|log|] == e;
  }

  /** A request of the burst that gets the lock after the move is repeated there at once: no probe,
      one data request to the target. */
  lemma BurstAcquire(cfg: Config, st: State, t: TaskId, hosts: Hosts, p: nat, answering: set<Host>, from: nat)
    requires p < |hosts| && BurstInv(cfg, st, hosts, p, answering) && from <= |st.log|
    requires Enabled(cfg, st, Acquire(t)) && st.tasks[t].pc == WantSwitch(RequestFailed(hosts[p]))
    ensures var after := Perform(cfg, st, Acquire(t));
      && BurstTask(after, t, hosts, p, answering, from)
      && (st.sh.index != p ==>
            && after.sh == st.sh && after.tasks[t].pc == Repeating && after.lock.None?
            && after.log == st.log + [Sent(t, Base(Current(st.sh)), Data(None, CredsOf(cfg, st.sh)))])
  {
    FirstAnswerMeaning(hosts, p, 1, answering);
    if st.sh.index != p {
      assert hosts[st.sh.index] != hosts[p];
      LastSentRepeats(st.log, Sent(t, Base(Current(st.sh)), Data(None, CredsOf(cfg, st.sh))), from, t, Current(st.sh));
    }
  }

  lemma BurstTaskDeliver(cfg: Config, st: State, t: TaskId, reply: Reply, hosts: Hosts, p: nat, answering: set<Host>, from: nat)
    requires p < |hosts| && BurstInv(cfg, st, hosts, p, answering) && from <= |st.log|
    requires Enabled(cfg, st, Deliver(t, reply)) && Steady(st, Deliver(t, reply), answering)
    requires BurstTask(st, t, hosts, p, answering, from)
    ensures BurstTask(Perform(cfg, st, Deliver(t, reply)), t, hosts, p, answering, from)
  {
    var pc := st.tasks[t].pc;
    var after := Perform(cfg, st, Deliver(t, reply));
    FirstAnswerMeaning(hosts, p, 1, answering);
    PerformLogs(cfg, st, Deliver(t, reply));
    if reply == Aborted {
      JustCutShort(cfg, st, t, from);
    }
    if Holds(pc) {
      InsideSteady(cfg, st.sh, pc, reply, p, answering, st.now);
      PerformSafe(cfg, st, Deliver(t, reply));
      var flight := after.tasks[t].flight;
      if after.tasks[t].pc == Repeating {
        PerformShaped(cfg, st, Deliver(t, reply), t);
        LastSentRepeats(Noted(st, t, reply).log, Sent(t, flight.value.url, flight.value.call), from, t, Current(after.sh));
      }
    } else if Target(hosts, p, answering).Some? && pc == Repeating {
      RepeatedLater(st.log, after.log, from, t, hosts[Target(hosts, p, answering).value]);
    }
  }

  /** Every request whose first attempt failed on host `p`: once it is over, it was repeated on the
      one target if there is one, and else failed as it had; one that did neither was cut short while
      it waited for the lock or asked the host in use. */
  lemma {:induction false} BurstRequestsAreRepeated(cfg: Config, r: Run, hosts: Hosts, p: nat, answering: set<Host>,
                                                    t: TaskId, i: nat)
    requires SteadyRun(cfg, r, hosts, p, answering) && i < |r.states|
    requires t in r.states[0].tasks && r.states[0].tasks[t].pc == WantSwitch(RequestFailed(hosts[p]))
    ensures |r.states[0].log| <= |r.states[i].log|
    ensures BurstTask(r.states[i], t, hosts, p, answering, |r.states[0].log|)
  {
    if i == 0 {
    } else {
      BurstRequestsAreRepeated(cfg, r, hosts, p, answering, t, i - 1);
      BurstStays(cfg, r, hosts, p, answering, i - 1);
      PerformLogs(cfg, r.states[i - 1], r.acts[i - 1]);
      BurstTaskStep(cfg, r.states[i - 1], r.acts[i - 1], t, hosts, p, answering, |r.states[0].log|);
    }
  }
}
