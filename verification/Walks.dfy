/** What `failover` has found out when it returns, for any caller and any network: the meaning of its
    verdict, and what becomes of it when the list of hosts changes under a walk. */
module Walks {
  import opened Wrappers
  import opened Protocol
  import opened HostSafety
  import Moves
  import Burst

  // ---- the verdict as the caller meets it ------------------------------------------------------------

  /** What `failover` returned, read off what its caller does next; None if it raised. */
  function ToldOf(pc: Pc, cause: Cause): Option<bool> {
    match cause
    case Consumer(_, _) => if pc.Done? && pc.outcome.Switched? then Some(pc.outcome.moved) else None
    case RequestFailed(_) =>
      if pc == Repeating then Some(true) else if pc == Done(Raised(Connection)) then Some(false) else None
    case RenewalFailed =>
      if pc.LoggingIn? || pc.Trying? then Some(true) else if pc == Done(Raised(Connection)) then Some(false) else None
  }

  lemma VerdictIsTold(cfg: Config, sh: Shared, cause: Cause, verdict: Verdict, now: real)
    requires InRange(sh) || verdict.Threw?
    requires verdict.Threw? ==> verdict.fault == IndexFault || verdict.fault == OtherFault
    ensures var next := AfterFailover(cfg, sh, cause, verdict, now);
      && next.sh == sh && !Holds(next.pc)
      && ToldOf(next.pc, cause) == (if verdict.Moved? then Some(verdict.moved) else None)
      && (verdict.Threw? ==> next.pc == Done(Raised(verdict.fault)))
  {
  }

  // ---- inside failover, whatever happens to the list ---------------------------------------------------

  /** Task `t`, and nobody else, is inside `failover`, where it started at `start`. */
  ghost predicate Inside(cfg: Config, st: State, t: TaskId, start: nat, cause: Cause) {
    && HostsOk(cfg, st.sh)
    && st.lock == Some(t) && t in st.tasks
    && (forall u :: u in st.tasks && Holds(st.tasks[u].pc) ==> u == t)
    && st.tasks[t].flight.Some?
    && st.tasks[t].flight.value.url == st.sh.baseUrl && st.tasks[t].flight.value.call.Probe?
    && match st.tasks[t].pc
       case Asking(s, c) => s == start && c == cause
       case Walking(s, offset, limit, c) => s == start && c == cause && 1 <= offset < limit
       case _ => false
  }

  /** How a step of `t` leaves `failover`, by the reply it was handed. */
  ghost predicate Leaves(st: State, reply: Reply, after: State, t: TaskId, start: nat, cause: Cause)
    requires t in st.tasks && t in after.tasks
  {
    var told, pc := ToldOf(after.tasks[t].pc, cause), after.tasks[t].pc;
    && after.lock.None? && after.sh.hosts == st.sh.hosts
    && match reply
       case Answered(_) =>
         && after.sh == st.sh
         && (if st.tasks[t].pc.Asking? then told == Some(false)
             else if start < |st.sh.hosts| then told == Some(true)
             else told == None && pc == Done(Raised(IndexFault)))
       case Aborted => after.sh == st.sh && told == None && pc == Done(Raised(OtherFault))
       case _ =>
         && (reply.Unreachable? || reply.Broken?)
         && after.sh == UseHost(st.sh, start)
         && (if start < |st.sh.hosts| then told == Some(false) else told == None && pc == Done(Raised(IndexFault)))
  }

  lemma WalkOnInside(cfg: Config, sh: Shared, start: nat, offset: nat, limit: nat, cause: Cause, now: real)
    requires HostsOk(cfg, sh) && 1 <= offset
    ensures var next := WalkOn(cfg, sh, start, offset, limit, cause, now);
      && next.sh.hosts == sh.hosts
      && (if offset < limit then
            && HostsOk(cfg, next.sh) && next.pc == Walking(start, offset, limit, cause)
            && next.sh.index == (start + offset) % |sh.hosts|
            && next.flight.Some? && next.flight.value.url == next.sh.baseUrl && next.flight.value.call.Probe?
          else
            && next.sh == UseHost(sh, start) && !Holds(next.pc)
            && ToldOf(next.pc, cause) == (if start < |sh.hosts| then Some(false) else None)
            && (start >= |sh.hosts| ==> next.pc == Done(Raised(IndexFault))))
  {
    if offset >= limit {
      VerdictIsTold(cfg, UseHost(sh, start), cause, if start < |sh.hosts| then Moved(false) else Threw(IndexFault), now);
    }
  }

  /** A reply to a task inside `failover`: it stays inside with the next candidate, or leaves. */
  lemma HearInside(cfg: Config, st: State, t: TaskId, reply: Reply, start: nat, cause: Cause)
    requires Inside(cfg, st, t, start, cause) && Enabled(cfg, st, Deliver(t, reply))
    ensures var after := Perform(cfg, st, Deliver(t, reply));
      if after.lock == Some(t) then
        && Inside(cfg, after, t, start, cause) && after.sh.hosts == st.sh.hosts
        && (reply.Unreachable? || reply.Broken?)
        && var before := st.tasks[t].pc;
           after.tasks[t].pc == Walking(start, if before.Asking? then 1 else before.offset + 1,
                                        if before.Asking? then |st.sh.hosts| else before.limit, cause)
           && after.sh.index == (start + after.tasks[t].pc.offset) % |st.sh.hosts|
      else
        && Leaves(st, reply, after, t, start, cause)
        && (reply.Unreachable? || reply.Broken? ==>
              if st.tasks[t].pc.Asking? then |st.sh.hosts| == 1 else st.tasks[t].pc.offset + 1 == st.tasks[t].pc.limit)
  {
    var pc := st.tasks[t].pc;
    HeardInside(cfg, st.sh, pc, reply, start, cause, st.now);
    WalkOnInside(cfg, st.sh, start, if pc.Asking? then 1 else pc.offset + 1, if pc.Asking? then |st.sh.hosts| else pc.limit,
                 cause, st.now);
  }

  /** The same, of the step itself. */
  lemma HeardInside(cfg: Config, sh: Shared, pc: Pc, reply: Reply, start: nat, cause: Cause, now: real)
    requires HostsOk(cfg, sh) && (reply.Answered? || reply.Unreachable? || reply.Broken? || reply.Aborted?)
    requires pc == Asking(start, cause) || (pc.Walking? && pc.start == start && pc.cause == cause && pc.offset >= 1)
    ensures var next := Resume(cfg, sh, pc, reply, now);
      var offset, limit := if pc.Asking? then 1 else pc.offset + 1, if pc.Asking? then |sh.hosts| else pc.limit;
      if reply.Answered? then
        && next.sh == sh && !Holds(next.pc)
        && (if pc.Asking? || start < |sh.hosts| then ToldOf(next.pc, cause) == Some(pc.Walking?)
            else ToldOf(next.pc, cause) == None && next.pc == Done(Raised(IndexFault)))
      else if reply.Aborted? then
        next.sh == sh && ToldOf(next.pc, cause) == None && next.pc == Done(Raised(OtherFault))
      else next == WalkOn(cfg, sh, start, offset, limit, cause, now)
  {
    match Hear(sh, reply) {
      case Yes =>
        VerdictIsTold(cfg, sh, cause, if pc.Asking? || start < |sh.hosts| then Moved(pc.Walking?) else Threw(IndexFault), now);
      case Mute(_) => Moves.AbortedProbe(cfg, sh, pc, now);
      case No =>
    }
  }

  /** Steps of the others, learning included, neither end the walk nor change its host; only learning
      changes the list. */
  lemma OthersInside(cfg: Config, st: State, a: Action, t: TaskId, start: nat, cause: Cause)
    requires Inside(cfg, st, t, start, cause) && Enabled(cfg, st, a) && !ActsAs(a, t)
    ensures var after := Perform(cfg, st, a);
      && Inside(cfg, after, t, start, cause) && after.tasks[t] == st.tasks[t]
      && Current(after.sh) == Current(st.sh)
      && (a.LearnHosts? || SameHosts(after.sh, st.sh))
  {
    match a {
      case LearnHosts(entries, replace) => LearnKeepsHost(cfg, st.sh, entries, replace);
      case Deliver(u, reply) => OutsideFailover(cfg, st.sh, st.tasks[u].pc, reply, st.now);
      case _ =>
    }
  }

  /** The first step inside. */
  lemma Enters(cfg: Config, st: State, t: TaskId)
    requires Safe(cfg, st) && Enabled(cfg, st, Acquire(t))
    ensures var after, cause, start := Perform(cfg, st, Acquire(t)), st.tasks[t].pc.cause, st.sh.index;
      && after.sh.hosts == st.sh.hosts
      && if FromHost(cause).Some? && FromHost(cause).value != Current(st.sh) then
           after.lock.None? && after.sh == st.sh && ToldOf(after.tasks[t].pc, cause) == Some(true)
         else if VerifyCurrent(cause) || |st.sh.hosts| >= 2 then
           && Inside(cfg, after, t, start, cause)
           && after.tasks[t].pc == (if VerifyCurrent(cause) then Asking(start, cause) else Walking(start, 1, |st.sh.hosts|, cause))
           && after.sh.index == (if VerifyCurrent(cause) then start else (start + 1) % |st.sh.hosts|)
         else
           after.lock.None? && after.sh == UseHost(st.sh, start) && ToldOf(after.tasks[t].pc, cause) == Some(false)
  {
    var cause := st.tasks[t].pc.cause;
    VerdictIsTold(cfg, st.sh, cause, Moved(true), st.now);
    WalkOnInside(cfg, st.sh, st.sh.index, 1, |st.sh.hosts|, cause, st.now);
  }

  // ---- a stay ------------------------------------------------------------------------------------------

  /** Task `t` gets the lock in step `i`, holds it until step `j - 1`, and has left it after. */
  ghost predicate Stay(cfg: Config, r: Run, t: TaskId, i: nat, j: nat) {
    && IsRun(cfg, r) && i < j < |r.states|
    && Safe(cfg, r.states[i])
    && r.acts[i] == Acquire(t)
    && (forall k :: i < k < j ==> r.states[k].lock == Some(t))
    && r.states[j].lock != Some(t)
  }

  /** Why it came. */
  function CauseOf(st: State, t: TaskId): Cause {
    if t in st.tasks && st.tasks[t].pc.WantSwitch? then st.tasks[t].pc.cause else RenewalFailed
  }

  ghost predicate InsideAt(cfg: Config, r: Run, t: TaskId, i: nat, k: nat)
    requires i < |r.states| && k < |r.states|
  {
    Inside(cfg, r.states[k], t, r.states[i].sh.index, CauseOf(r.states[i], t))
  }

  lemma {:induction false} StaysInside(cfg: Config, r: Run, t: TaskId, i: nat, j: nat, k: nat)
    requires Stay(cfg, r, t, i, j) && i < k < j
    ensures InsideAt(cfg, r, t, i, k)
    ensures r.states[k].tasks[t].pc.Asking? ==> Current(r.states[k].sh) == Current(r.states[i].sh)
    decreases k
  {
    if k == i + 1 {
      Enters(cfg, r.states[i], t);
    } else {
      StaysInside(cfg, r, t, i, j, k - 1);
      InsideStep(cfg, r.states[k - 1], r.acts[k - 1], r.states[k], t, r.states[i].sh.index, CauseOf(r.states[i], t));
    }
  }

  lemma InsideStep(cfg: Config, st: State, a: Action, after: State, t: TaskId, start: nat, cause: Cause)
    requires Inside(cfg, st, t, start, cause) && Enabled(cfg, st, a) && after == Perform(cfg, st, a)
    ensures
      && (after.lock == Some(t) ==>
            && Inside(cfg, after, t, start, cause)
            && (after.tasks[t].pc.Asking? ==> st.tasks[t].pc.Asking? && Current(after.sh) == Current(st.sh)))
      && (after.lock != Some(t) ==> a.Deliver? && a.task == t && t in after.tasks && Leaves(st, a.reply, after, t, start, cause))
  {
    if ActsAs(a, t) {
      HearInside(cfg, st, t, a.reply, start, cause);
    } else {
      OthersInside(cfg, st, a, t, start, cause);
    }
  }

  /** However the list was changed meanwhile, and however often: a candidate that answered is kept, and
      True is returned exactly if the index the walk came from is still in the list; a walk that gives up
      goes back to that index, whatever it names by now. */
  lemma StayEnds(cfg: Config, r: Run, t: TaskId, i: nat, j: nat)
    requires Stay(cfg, r, t, i, j) && i + 1 < j
    ensures var a := r.acts[j - 1];
      && a.Deliver? && a.task == t && InsideAt(cfg, r, t, i, j - 1)
      && (r.states[j - 1].tasks[t].pc.Asking? ==> Current(r.states[j - 1].sh) == Current(r.states[i].sh))
      && t in r.states[j].tasks
      && Leaves(r.states[j - 1], a.reply, r.states[j], t, r.states[i].sh.index, CauseOf(r.states[i], t))
  {
    var start, cause := r.states[i].sh.index, CauseOf(r.states[i], t);
    var st, a, after := r.states[j - 1], r.acts[j - 1], r.states[j];
    StaysInside(cfg, r, t, i, j, j - 1);
    InsideStep(cfg, st, a, after, t, start, cause);
  }

  // ---- replacing the list during a stay ------------------------------------------------------------------

  /** Whether the fresh list names the host at `start` at the very place it had: as one of the hosts
      kept or given, or as the host in use, which is appended if it is neither. */
  predicate StartStays(sh: Shared, entries: seq<Entry>, start: nat)
    requires start < |sh.hosts|
  {
    var members := Kept([sh.hosts[0]], entries);
    if start < |members| then members[start] == sh.hosts[start]
    else start == |members| && start == sh.index && sh.hosts[start] !in members
  }

  lemma FreshList(cfg: Config, sh: Shared, entries: seq<Entry>, start: nat)
    requires HostsOk(cfg, sh) && start < |sh.hosts|
    ensures var renewed := Learn(sh, entries, true).hosts;
      (start < |renewed| && renewed[start] == sh.hosts[start]) <==> StartStays(sh, entries, start)
  {
    KeptExtends([sh.hosts[0]], entries);
    var members := Kept([sh.hosts[0]], entries);
    var renewed := Learnt(sh, entries, true);
    assert start < |members| ==> renewed[start] == members[start];
    assert start == |members| && start < |renewed| ==> renewed[start] == Current(sh);
  }

  /** Going back to `start`: the client is whole, and on the host it left, exactly if the list has that
      host there. */
  lemma GoingBack(cfg: Config, sh: Shared, start: nat, home: Host)
    requires HostsOk(cfg, sh)
    ensures var back := UseHost(sh, start);
      (HostsOk(cfg, back) && Current(back) == home) <==> (start < |sh.hosts| && sh.hosts[start] == home)
  {
  }

  /** Until the list is replaced, a stay is calm: the list only grows. */
  lemma {:induction false} CalmPart(cfg: Config, r: Run, t: TaskId, i: nat, j: nat, k: nat)
    requires Stay(cfg, r, t, i, j) && i <= k < j
    requires forall m :: i <= m < k && r.acts[m].LearnHosts? ==> !r.acts[m].replace
    ensures Safe(cfg, r.states[k]) && r.states[i].sh.hosts <= r.states[k].sh.hosts
    decreases k
  {
    if k == i {
    } else {
      var st, a, after := r.states[k - 1], r.acts[k - 1], r.states[k];
      CalmPart(cfg, r, t, i, j, k - 1);
      PerformSafe(cfg, st, a);
      ListGrows(cfg, st, a, after);
    }
  }

  lemma ListGrows(cfg: Config, st: State, a: Action, after: State)
    requires Safe(cfg, st) && Enabled(cfg, st, a) && after == Perform(cfg, st, a)
    requires a.LearnHosts? ==> !a.replace
    ensures st.sh.hosts <= after.sh.hosts
  {
    match a {
      case LearnHosts(entries, replace) => LearnKeepsHost(cfg, st.sh, entries, replace);
      case Acquire(t) => EnterFailoverSafe(cfg, st.sh, st.tasks[t].pc.cause, st.now);
      case Deliver(t, reply) =>
        if Holds(st.tasks[t].pc) {
          InsideFailover(cfg, st.sh, st.tasks[t].pc, st.tasks[t].flight, reply, st.now);
        } else {
          OutsideFailover(cfg, st.sh, st.tasks[t].pc, reply, st.now);
        }
      case _ =>
    }
  }

  /** The first `replace=True` of a stay, while the host in use is asked or at any candidate, with no
      change of the list after it. */
  ghost predicate ReplacedOnce(cfg: Config, r: Run, t: TaskId, i: nat, j: nat, k: nat, entries: seq<Entry>) {
    && Stay(cfg, r, t, i, j) && i < k < j - 1
    && r.acts[k] == LearnHosts(entries, true)
    && (forall m :: i <= m < k && r.acts[m].LearnHosts? ==> !r.acts[m].replace)
    && r.states[j - 1].sh.hosts == r.states[k + 1].sh.hosts
  }

  /** The client is on the host that `t` is asking. */
  predicate OnAskedHost(st: State, sh: Shared, t: TaskId)
    requires t in st.tasks && InRange(sh)
  {
    st.tasks[t].flight.Some? && st.tasks[t].flight.value.url == Base(Current(sh))
  }

  /** How `failover` ends that started in `before`, met the replacement in `at`, and was handed its last
      reply in `st`. */
  ghost predicate EndsReplaced(cfg: Config, before: State, at: State, st: State, reply: Reply, after: State, t: TaskId,
                               entries: seq<Entry>)
  {
    var start, renewed := before.sh.index, Learn(at.sh, entries, true).hosts;
    && start < |before.sh.hosts| && start < |at.sh.hosts| && t in st.tasks && t in after.tasks
    && var home, pc, told := before.sh.hosts[start], after.tasks[t].pc, ToldOf(after.tasks[t].pc, CauseOf(before, t));
       && after.sh.hosts == renewed
       && match reply
          case Answered(_) =>
            && HostsOk(cfg, after.sh) && OnAskedHost(st, after.sh, t)
            && (Current(after.sh) == home <==> st.tasks[t].flight.value.url == Base(home))
            && (if st.tasks[t].pc.Asking? then Current(after.sh) == home && told == Some(false)
                else if start < |renewed| then told == Some(true)
                else pc == Done(Raised(IndexFault)))
          case Aborted => HostsOk(cfg, after.sh) && OnAskedHost(st, after.sh, t) && pc == Done(Raised(OtherFault))
          case _ =>
            && ((HostsOk(cfg, after.sh) && Current(after.sh) == home) <==> StartStays(at.sh, entries, start))
            && (if start < |renewed| then told == Some(false) else pc == Done(Raised(IndexFault)) && !InRange(after.sh))
  }

  /** `replace=True` anywhere inside `failover`. If the current host answers after all, the client stays
      on it. If a candidate answers - which can be the host it left, see `WhenHomeAnswers` - the client
      is whole and on that candidate, and `failover` returns True exactly if its first index is still within the list; otherwise the warning about the success
      raises. If nobody answers, the client is back on the host it left exactly if the fresh list kept
      that host in its place; otherwise it is on some other host, or the index lies beyond the list and
      `failover` raises. */
  lemma ReplaceDuringWalk(cfg: Config, r: Run, t: TaskId, i: nat, j: nat, k: nat, entries: seq<Entry>)
    requires ReplacedOnce(cfg, r, t, i, j, k, entries)
    ensures r.acts[j - 1].Deliver? && r.acts[j - 1].task == t
    ensures EndsReplaced(cfg, r.states[i], r.states[k], r.states[j - 1], r.acts[j - 1].reply, r.states[j], t, entries)
  {
    var before, at, st, after := r.states[i], r.states[k], r.states[j - 1], r.states[j];
    StayEnds(cfg, r, t, i, j);
    CalmPart(cfg, r, t, i, j, k);
    assert r.states[k + 1].sh == Learn(at.sh, entries, true);
    Ends(cfg, before, at, st, r.acts[j - 1].reply, after, t, entries);
  }

  lemma Ends(cfg: Config, before: State, at: State, st: State, reply: Reply, after: State, t: TaskId, entries: seq<Entry>)
    requires HostsOk(cfg, before.sh) && HostsOk(cfg, at.sh) && before.sh.hosts <= at.sh.hosts
    requires Inside(cfg, st, t, before.sh.index, CauseOf(before, t)) && st.sh.hosts == Learn(at.sh, entries, true).hosts
    requires st.tasks[t].pc.Asking? ==> Current(st.sh) == Current(before.sh)
    requires t in after.tasks && Leaves(st, reply, after, t, before.sh.index, CauseOf(before, t))
    ensures EndsReplaced(cfg, before, at, st, reply, after, t, entries)
  {
    FreshList(cfg, at.sh, entries, before.sh.index);
    GoingBack(cfg, st.sh, before.sh.index, Current(before.sh));
  }

  // ---- a candidate that is the host the walk came from -------------------------------------------------

  /** Since the list was replaced: still the same question, or a candidate of the fresh list. */
  ghost predicate AskedSince(at: State, st: State, t: TaskId, start: nat) {
    && t in at.tasks && t in st.tasks && InRange(at.sh) && InRange(st.sh)
    && var was, pc := at.tasks[t].pc, st.tasks[t].pc;
       || (pc == was && Current(st.sh) == Current(at.sh))
       || (&& pc.Walking? && (was.Walking? ==> was.offset < pc.offset)
           && st.sh.index == (start + pc.offset) % |st.sh.hosts|)
  }

  lemma AskedStep(cfg: Config, at: State, st: State, a: Action, after: State, t: TaskId, start: nat, cause: Cause)
    requires Inside(cfg, st, t, start, cause) && Enabled(cfg, st, a) && after == Perform(cfg, st, a)
    requires AskedSince(at, st, t, start) && after.lock == Some(t) && after.sh.hosts == st.sh.hosts
    ensures AskedSince(at, after, t, start)
  {
    if ActsAs(a, t) {
      HearInside(cfg, st, t, a.reply, start, cause);
    } else {
      OthersInside(cfg, st, a, t, start, cause);
      assert after.sh.index == st.sh.index;
    }
  }

  ghost predicate ListRests(r: Run, k: nat, j: nat) {
    j <= |r.states| && forall m :: k < m < j ==> r.states[m].sh.hosts == r.states[k + 1].sh.hosts
  }

  lemma AskedFirst(cfg: Config, at: State, a: Action, after: State, t: TaskId, start: nat, cause: Cause)
    requires Inside(cfg, at, t, start, cause) && Enabled(cfg, at, a) && after == Perform(cfg, at, a) && a.LearnHosts?
    ensures AskedSince(at, after, t, start)
  {
    OthersInside(cfg, at, a, t, start, cause);
  }

  lemma AskedNext(cfg: Config, r: Run, t: TaskId, start: nat, cause: Cause, k: nat, m: nat)
    requires IsRun(cfg, r) && k < m < |r.acts|
    requires Inside(cfg, r.states[m], t, start, cause) && AskedSince(r.states[k], r.states[m], t, start)
    requires r.states[m + 1].lock == Some(t) && r.states[m + 1].sh.hosts == r.states[m].sh.hosts
    ensures AskedSince(r.states[k], r.states[m + 1], t, start)
  {
    var st, a, after := r.states[m], r.acts[m], r.states[m + 1];
    AskedStep(cfg, r.states[k], st, a, after, t, start, cause);
  }

  lemma {:induction false} AskedRun(cfg: Config, r: Run, t: TaskId, i: nat, j: nat, k: nat, m: nat)
    requires Stay(cfg, r, t, i, j) && i < k < m < j && ListRests(r, k, j)
    requires AskedSince(r.states[k], r.states[k + 1], t, r.states[i].sh.index)
    ensures AskedSince(r.states[k], r.states[m], t, r.states[i].sh.index)
    decreases m
  {
    if m == k + 1 {
    } else {
      AskedRun(cfg, r, t, i, j, k, m - 1);
      StaysInside(cfg, r, t, i, j, m - 1);
      AskedNext(cfg, r, t, r.states[i].sh.index, CauseOf(r.states[i], t), k, m - 1);
    }
  }

  /** True need not mean a move: after a replacement the walk may come by the host it left. That is so
      exactly if the candidate was chosen from the fresh list, and its place there is that of this host. */
  lemma WhenHomeAnswers(cfg: Config, r: Run, t: TaskId, i: nat, j: nat, k: nat, entries: seq<Entry>)
    requires ReplacedOnce(cfg, r, t, i, j, k, entries) && ListRests(r, k, j)
    requires r.acts[j - 1].Deliver? && r.acts[j - 1].task == t && r.acts[j - 1].reply.Answered?
    requires t in r.states[j - 1].tasks && r.states[j - 1].tasks[t].pc.Walking?
    ensures InRange(r.states[i].sh) && InRange(r.states[j].sh) && t in r.states[k].tasks
    ensures var before, at, st, after := r.states[i], r.states[k], r.states[j - 1], r.states[j];
      var pc, renewed := st.tasks[t].pc, Learn(at.sh, entries, true).hosts;
      Current(after.sh) == Current(before.sh)
      <==> pc != at.tasks[t].pc && renewed[(before.sh.index + pc.offset) % |renewed|] == Current(before.sh)
  {
    var before, at, st := r.states[i], r.states[k], r.states[j - 1];
    CalmPart(cfg, r, t, i, j, k);
    ReplacedThere(cfg, r, t, i, j, k, entries);
    AskedRun(cfg, r, t, i, j, k, j - 1);
    StayEnds(cfg, r, t, i, j);
    HomeIsNoCandidate(cfg, before, at, t);
  }

  lemma ReplacedThere(cfg: Config, r: Run, t: TaskId, i: nat, j: nat, k: nat, entries: seq<Entry>)
    requires ReplacedOnce(cfg, r, t, i, j, k, entries)
    ensures InsideAt(cfg, r, t, i, k) && r.states[k + 1].sh == Learn(r.states[k].sh, entries, true)
    ensures AskedSince(r.states[k], r.states[k + 1], t, r.states[i].sh.index)
  {
    var at, a, after := r.states[k], r.acts[k], r.states[k + 1];
    StaysInside(cfg, r, t, i, j, k);
    AskedFirst(cfg, at, a, after, t, r.states[i].sh.index, CauseOf(r.states[i], t));
  }

  /** Before that, no candidate is the host the walk came from. */
  lemma HomeIsNoCandidate(cfg: Config, before: State, at: State, t: TaskId)
    requires HostsOk(cfg, before.sh) && Safe(cfg, at) && before.sh.hosts <= at.sh.hosts
    requires t in at.tasks && (at.tasks[t].pc.Walking? ==> at.tasks[t].pc.start == before.sh.index)
    ensures at.tasks[t].pc.Walking? ==> Current(at.sh) != Current(before.sh)
  {
    assert at.sh.hosts[before.sh.index] == Current(before.sh);
  }

  // ---- what the task heard -----------------------------------------------------------------------------

  predicate IsProbeOf(e: Event, t: TaskId, h: Host) {
    e.Got? && e.task == t && e.call.Probe? && e.url == Base(h)
  }

  /** Since `from`, task `t` probed `h` and was answered; not answered; told nothing, by an exception. */
  ghost predicate Answering(log: seq<Event>, from: nat, t: TaskId, h: Host) {
    exists k :: from <= k < |log| && IsProbeOf(log[k], t, h) && log[k].reply.Answered?
  }

  ghost predicate Silent(log: seq<Event>, from: nat, t: TaskId, h: Host) {
    exists k :: from <= k < |log| && IsProbeOf(log[k], t, h) && (log[k].reply.Unreachable? || log[k].reply.Broken?)
  }

  ghost predicate Torn(log: seq<Event>, from: nat, t: TaskId) {
    exists k :: from <= k < |log| && log[k].Got? && log[k].task == t && log[k].reply.Aborted?
  }

  /** So far `t` has heard nothing but silence. */
  ghost predicate OnlySilence(log: seq<Event>, from: nat, t: TaskId) {
    from <= |log| && forall k :: from <= k < |log| && log[k].Got? && log[k].task == t ==> log[k].reply.Unreachable? || log[k].reply.Broken?
  }

  /** The hosts a walk from `start` passes before `offset` were silent, and so was the one at `start`
      if it was asked first. */
  ghost predicate AllSilentBefore(log: seq<Event>, from: nat, t: TaskId, hosts: Hosts, start: nat, offset: nat, cause: Cause)
    requires start < |hosts|
  {
    && (VerifyCurrent(cause) ==> Silent(log, from, t, hosts[start]))
    && forall i :: 0 <= i < |hosts| && i != start && Burst.OffsetOf(start, i, |hosts|) < offset ==> Silent(log, from, t, hosts[i])
  }

  /** A walk over a list that stays as it is. */
  ghost predicate SoFar(cfg: Config, st: State, t: TaskId, hosts: Hosts, start: nat, cause: Cause, from: nat)
    requires start < |hosts|
  {
    && Inside(cfg, st, t, start, cause) && st.sh.hosts == hosts
    && OnlySilence(st.log, from, t)
    && match st.tasks[t].pc
       case Asking(_, _) => VerifyCurrent(cause) && st.sh.index == start
       case Walking(_, offset, limit, _) =>
         && limit == |hosts| && st.sh.index == (start + offset) % |hosts|
         && AllSilentBefore(st.log, from, t, hosts, start, offset, cause)
       case _ => true
  }

  /** What the verdict of a walk means, and what it says about the host in use. */
  ghost predicate Justified(cfg: Config, after: State, t: TaskId, hosts: Hosts, start: nat, cause: Cause, from: nat)
    requires start < |hosts| && t in after.tasks
  {
    var told, sh, log := ToldOf(after.tasks[t].pc, cause), after.sh, after.log;
    && sh.hosts == hosts && HostsOk(cfg, sh)
    && (told.None? <==> Torn(log, from, t))
    && (told == Some(true) <==> exists i :: 0 <= i < |hosts| && i != start && Answering(log, from, t, hosts[i]))
    && (told == Some(true) ==>
          && sh.index != start && Answering(log, from, t, Current(sh))
          && AllSilentBefore(log, from, t, hosts, start, Burst.OffsetOf(start, sh.index, |hosts|), cause))
    && (told == Some(false) ==>
          && sh.index == start
          && if Answering(log, from, t, hosts[start]) then VerifyCurrent(cause)
             else AllSilentBefore(log, from, t, hosts, start, |hosts|, cause))
  }

  lemma SilentLater(log: seq<Event>, longer: seq<Event>, from: nat, t: TaskId, h: Host)
    requires log <= longer && Silent(log, from, t, h)
    ensures Silent(longer, from, t, h)
  {
    var k :| from <= k < |log| && IsProbeOf(log[k], t, h) && (log[k].reply.Unreachable? || log[k].reply.Broken?);
    assert longer[k] == log[k];
  }

  lemma AllSilentLater(log: seq<Event>, longer: seq<Event>, from: nat, t: TaskId, hosts: Hosts, start: nat, offset: nat, cause: Cause)
    requires start < |hosts| && log <= longer && AllSilentBefore(log, from, t, hosts, start, offset, cause)
    ensures AllSilentBefore(longer, from, t, hosts, start, offset, cause)
  {
    if VerifyCurrent(cause) {
      SilentLater(log, longer, from, t, hosts[start]);
    }
    forall i | 0 <= i < |hosts| && i != start && Burst.OffsetOf(start, i, |hosts|) < offset
      ensures Silent(longer, from, t, hosts[i])
    {
      SilentLater(log, longer, from, t, hosts[i]);
    }
  }

  /** One more silent candidate. */
  lemma OneMoreSilent(log: seq<Event>, from: nat, t: TaskId, hosts: Hosts, start: nat, offset: nat, cause: Cause)
    requires start < |hosts| && 1 <= offset < |hosts|
    requires AllSilentBefore(log, from, t, hosts, start, offset, cause)
    requires Silent(log, from, t, hosts[(start + offset) % |hosts|])
    ensures AllSilentBefore(log, from, t, hosts, start, offset + 1, cause)
  {
    forall i | 0 <= i < |hosts| && i != start && Burst.OffsetOf(start, i, |hosts|) < offset + 1
      ensures Silent(log, from, t, hosts[i])
    {
      if Burst.OffsetOf(start, i, |hosts|) == offset {
        Burst.WalkVisitsEachOnce(start, i, |hosts|, offset);
      }
    }
  }

  // ---- the steps of a walk -----------------------------------------------------------------------------

  /** What the others do is not what `t` hears. */
  lemma OthersSoFar(cfg: Config, st: State, a: Action, after: State, t: TaskId, hosts: Hosts, start: nat, cause: Cause, from: nat)
    requires start < |hosts| && SoFar(cfg, st, t, hosts, start, cause, from)
    requires Enabled(cfg, st, a) && after == Perform(cfg, st, a) && !ActsAs(a, t) && after.sh.hosts == hosts
    ensures SoFar(cfg, after, t, hosts, start, cause, from)
  {
    OthersInside(cfg, st, a, t, start, cause);
    Moves.PerformLogs(cfg, st, a);
    assert after.sh.index == st.sh.index;
    OthersLog(cfg, st, a, after, t);
    var pc := st.tasks[t].pc;
    if pc.Walking? {
      AllSilentLater(st.log, after.log, from, t, hosts, start, pc.offset, cause);
    }
  }

  lemma OthersLog(cfg: Config, st: State, a: Action, after: State, t: TaskId)
    requires Enabled(cfg, st, a) && after == Perform(cfg, st, a) && !ActsAs(a, t)
    ensures st.log <= after.log
    ensures forall k :: |st.log| <= k < |after.log| && after.log[k].Got? ==> after.log[k].task != t
  {
  }

  lemma OwnLog(cfg: Config, st: State, t: TaskId, reply: Reply, after: State, h: Host)
    requires Enabled(cfg, st, Deliver(t, reply)) && after == Perform(cfg, st, Deliver(t, reply))
    requires st.tasks[t].flight.Some? && st.tasks[t].flight.value.url == Base(h) && st.tasks[t].flight.value.call.Probe?
    ensures st.log < after.log && IsProbeOf(after.log[|st.log|], t, h) && after.log[|st.log|].reply == reply
    ensures forall k :: |st.log| < k < |after.log| ==> !after.log[k].Got?
  {
  }

  /** A silent candidate, and the next one or the end. */
  lemma SilenceSoFar(cfg: Config, st: State, t: TaskId, reply: Reply, after: State, hosts: Hosts, start: nat, cause: Cause, from: nat)
    requires start < |hosts| && SoFar(cfg, st, t, hosts, start, cause, from) && Enabled(cfg, st, Deliver(t, reply))
    requires after == Perform(cfg, st, Deliver(t, reply)) && (reply.Unreachable? || reply.Broken?)
    ensures var offset := if st.tasks[t].pc.Asking? then 1 else st.tasks[t].pc.offset + 1;
      OnlySilence(after.log, from, t) && AllSilentBefore(after.log, from, t, hosts, start, offset, cause)
  {
    var pc := st.tasks[t].pc;
    OwnLog(cfg, st, t, reply, after, Current(st.sh));
    assert Silent(after.log, from, t, Current(st.sh));
    if pc.Walking? {
      AllSilentLater(st.log, after.log, from, t, hosts, start, pc.offset, cause);
      OneMoreSilent(after.log, from, t, hosts, start, pc.offset, cause);
    }
  }

  /** A walk that ends, ends with a verdict that is justified. */
  lemma EndSoFar(cfg: Config, st: State, t: TaskId, reply: Reply, after: State, hosts: Hosts, start: nat, cause: Cause, from: nat)
    requires start < |hosts| && SoFar(cfg, st, t, hosts, start, cause, from) && Enabled(cfg, st, Deliver(t, reply))
    requires after == Perform(cfg, st, Deliver(t, reply)) && after.lock != Some(t)
    ensures Justified(cfg, after, t, hosts, start, cause, from)
  {
    HearInside(cfg, st, t, reply, start, cause);
    OwnLog(cfg, st, t, reply, after, Current(st.sh));
    LastHeard(st.log, after.log, from, t);
    match reply {
      case Answered(_) => AnswerEnds(cfg, st, t, reply, after, hosts, start, cause, from);
      case Aborted =>
      case _ => SilenceSoFar(cfg, st, t, reply, after, hosts, start, cause, from);
    }
  }

  lemma AnswerEnds(cfg: Config, st: State, t: TaskId, reply: Reply, after: State, hosts: Hosts, start: nat, cause: Cause, from: nat)
    requires start < |hosts| && SoFar(cfg, st, t, hosts, start, cause, from) && reply.Answered?
    requires st.log < after.log && IsProbeOf(after.log[|st.log|], t, Current(st.sh)) && after.log[|st.log|].reply == reply
    requires AllButOneSilent(after.log, from, t, |st.log|)
    requires t in after.tasks && Leaves(st, reply, after, t, start, cause)
    ensures Justified(cfg, after, t, hosts, start, cause, from)
  {
    var pc := st.tasks[t].pc;
    OneAnswer(after.log, from, t, |st.log|, hosts, st.sh.index);
    if pc.Walking? {
      ModIsOther(start, pc.offset, |hosts|);
      Burst.WalkVisitsEachOnce(start, st.sh.index, |hosts|, pc.offset);
      AllSilentLater(st.log, after.log, from, t, hosts, start, pc.offset, cause);
    }
  }

  ghost predicate AllButOneSilent(log: seq<Event>, from: nat, t: TaskId, last: nat) {
    forall k :: from <= k < |log| && log[k].Got? && log[k].task == t && k != last ==>
      log[k].reply.Unreachable? || log[k].reply.Broken?
  }

  lemma LastHeard(log: seq<Event>, longer: seq<Event>, from: nat, t: TaskId)
    requires OnlySilence(log, from, t) && log < longer
    requires forall k :: |log| < k < |longer| ==> !longer[k].Got?
    ensures AllButOneSilent(longer, from, t, |log|)
  {
    forall k | from <= k < |longer| && longer[k].Got? && longer[k].task == t && k != |log|
      ensures longer[k].reply.Unreachable? || longer[k].reply.Broken?
    {
      assert longer[k] == log[k];
    }
  }

  lemma OneAnswer(log: seq<Event>, from: nat, t: TaskId, last: nat, hosts: Hosts, index: nat)
    requires NoDuplicates(hosts) && index < |hosts|
    requires from <= last < |log| && IsProbeOf(log[last], t, hosts[index]) && log[last].reply.Answered?
    requires AllButOneSilent(log, from, t, last)
    ensures forall i :: 0 <= i < |hosts| ==> (Answering(log, from, t, hosts[i]) <==> i == index)
    ensures !Torn(log, from, t)
  {
  }

  lemma StepSoFar(cfg: Config, st: State, a: Action, after: State, t: TaskId, hosts: Hosts, start: nat, cause: Cause, from: nat)
    requires start < |hosts| && SoFar(cfg, st, t, hosts, start, cause, from)
    requires Enabled(cfg, st, a) && after == Perform(cfg, st, a) && after.sh.hosts == hosts
    ensures if after.lock == Some(t) then SoFar(cfg, after, t, hosts, start, cause, from)
            else t in after.tasks && Justified(cfg, after, t, hosts, start, cause, from)
  {
    if !ActsAs(a, t) {
      OthersSoFar(cfg, st, a, after, t, hosts, start, cause, from);
    } else {
      HearInside(cfg, st, t, a.reply, start, cause);
      if after.lock != Some(t) {
        EndSoFar(cfg, st, t, a.reply, after, hosts, start, cause, from);
      } else {
        SilenceSoFar(cfg, st, t, a.reply, after, hosts, start, cause, from);
      }
    }
  }

  lemma EntersSoFar(cfg: Config, st: State, after: State, t: TaskId)
    requires Safe(cfg, st) && Enabled(cfg, st, Acquire(t)) && after == Perform(cfg, st, Acquire(t))
    requires var from := FromHost(st.tasks[t].pc.cause); from.None? || from.value == Current(st.sh)
    ensures if after.lock == Some(t) then SoFar(cfg, after, t, st.sh.hosts, st.sh.index, st.tasks[t].pc.cause, |st.log|)
            else Justified(cfg, after, t, st.sh.hosts, st.sh.index, st.tasks[t].pc.cause, |st.log|)
  {
    Enters(cfg, st, t);
  }

  // ---- the verdict -------------------------------------------------------------------------------------

  /** The list is as it was when `t` got the lock. */
  ghost predicate ListStays(r: Run, i: nat, j: nat)
    requires i <= j < |r.states|
  {
    forall k :: i <= k <= j ==> r.states[k].sh.hosts == r.states[i].sh.hosts
  }

  /** `from_host` names another host than the one in use. */
  predicate Elsewhere(cause: Cause, sh: Shared)
    requires InRange(sh)
  {
    FromHost(cause).Some? && FromHost(cause).value != Current(sh)
  }

  ghost predicate SoFarAt(cfg: Config, r: Run, t: TaskId, i: nat, k: nat)
    requires i < |r.states| && k < |r.states|
  {
    var sh := r.states[i].sh;
    InRange(sh) && SoFar(cfg, r.states[k], t, sh.hosts, sh.index, CauseOf(r.states[i], t), |r.states[i].log|)
  }

  lemma {:induction false} WalkRun(cfg: Config, r: Run, t: TaskId, i: nat, j: nat, k: nat)
    requires Stay(cfg, r, t, i, j) && ListStays(r, i, j) && i < k < j
    requires !Elsewhere(CauseOf(r.states[i], t), r.states[i].sh)
    ensures SoFarAt(cfg, r, t, i, k)
    decreases k
  {
    if k == i + 1 {
      EntersSoFar(cfg, r.states[i], r.states[k], t);
    } else {
      var sh, st, a, after := r.states[i].sh, r.states[k - 1], r.acts[k - 1], r.states[k];
      WalkRun(cfg, r, t, i, j, k - 1);
      StepSoFar(cfg, st, a, after, t, sh.hosts, sh.index, CauseOf(r.states[i], t), |r.states[i].log|);
    }
  }

  lemma WalkEnds(cfg: Config, r: Run, t: TaskId, i: nat, j: nat)
    requires IsRun(cfg, r) && i < j - 1 < |r.acts| && SoFarAt(cfg, r, t, i, j - 1)
    requires r.states[j].sh.hosts == r.states[i].sh.hosts && r.states[j].lock != Some(t)
    ensures t in r.states[j].tasks
    ensures var sh := r.states[i].sh;
      Justified(cfg, r.states[j], t, sh.hosts, sh.index, CauseOf(r.states[i], t), |r.states[i].log|)
  {
    var sh, st, a, after := r.states[i].sh, r.states[j - 1], r.acts[j - 1], r.states[j];
    StepSoFar(cfg, st, a, after, t, sh.hosts, sh.index, CauseOf(r.states[i], t), |r.states[i].log|);
  }

  /** What `failover` returns, for any cause, in any company and under any network, as long as the list
      stays as it was. If the caller was on another host, it is True at once and nothing else happens.
      Otherwise it is True exactly if a host other than the one it started from answered this call's own
      probe, and the client is then on the first such host in cyclic order, all hosts before it silent;
      it is False exactly if nobody else did and no probe was torn down, and the client is then where it
      was, because that host answered or because all others are silent. */
  lemma VerdictIsJustified(cfg: Config, r: Run, t: TaskId, i: nat, j: nat)
    requires Stay(cfg, r, t, i, j) && ListStays(r, i, j)
    ensures t in r.states[j].tasks
    ensures var before, after, cause := r.states[i], r.states[j], CauseOf(r.states[i], t);
      if Elsewhere(cause, before.sh)
      then j == i + 1 && after.sh == before.sh && ToldOf(after.tasks[t].pc, cause) == Some(true)
      else Justified(cfg, after, t, before.sh.hosts, before.sh.index, cause, |before.log|)
  {
    if Elsewhere(CauseOf(r.states[i], t), r.states[i].sh) {
      Enters(cfg, r.states[i], t);
      assert r.states[i + 1].lock != Some(t);
    } else if j == i + 1 {
      EntersSoFar(cfg, r.states[i], r.states[j], t);
    } else {
      WalkRun(cfg, r, t, i, j, j - 1);
      WalkEnds(cfg, r, t, i, j);
    }
  }

  // ---- the verdict, while hosts are added -----------------------------------------------------------------

  /** Whatever is learnt meanwhile, a task that is still inside has heard nothing but silence. */
  lemma {:induction false} SilentSoFar(cfg: Config, r: Run, t: TaskId, i: nat, j: nat, k: nat)
    requires Stay(cfg, r, t, i, j) && i < k < j
    ensures OnlySilence(r.states[k].log, |r.states[i].log|, t)
    decreases k
  {
    var start, cause := r.states[i].sh.index, CauseOf(r.states[i], t);
    var st, a, after := r.states[k - 1], r.acts[k - 1], r.states[k];
    if k == i + 1 {
      EntersSilently(cfg, st, t);
    } else {
      SilentSoFar(cfg, r, t, i, j, k - 1);
      StaysInside(cfg, r, t, i, j, k - 1);
      SilentStep(cfg, st, a, after, t, start, cause, |r.states[i].log|);
    }
  }

  lemma EntersSilently(cfg: Config, st: State, t: TaskId)
    requires Enabled(cfg, st, Acquire(t))
    ensures OnlySilence(Perform(cfg, st, Acquire(t)).log, |st.log|, t)
    ensures forall k :: |st.log| <= k < |Perform(cfg, st, Acquire(t)).log| ==> !Perform(cfg, st, Acquire(t)).log[k].Got?
  {
  }

  lemma SilentStep(cfg: Config, st: State, a: Action, after: State, t: TaskId, start: nat, cause: Cause, from: nat)
    requires Inside(cfg, st, t, start, cause) && Enabled(cfg, st, a) && after == Perform(cfg, st, a)
    requires OnlySilence(st.log, from, t) && after.lock == Some(t)
    ensures OnlySilence(after.log, from, t)
  {
    if ActsAs(a, t) {
      HearInside(cfg, st, t, a.reply, start, cause);
      OwnLog(cfg, st, t, a.reply, after, Current(st.sh));
      LastHeard(st.log, after.log, from, t);
    } else {
      OthersLog(cfg, st, a, after, t);
    }
  }

  /** What the last reply says is all that was ever said. */
  lemma LastWord(cfg: Config, st: State, t: TaskId, reply: Reply, after: State, start: nat, cause: Cause, from: nat, h: Host)
    requires Inside(cfg, st, t, start, cause) && Enabled(cfg, st, Deliver(t, reply))
    requires after == Perform(cfg, st, Deliver(t, reply)) && OnlySilence(st.log, from, t)
    ensures Answering(after.log, from, t, h) <==> reply.Answered? && h == Current(st.sh)
    ensures Torn(after.log, from, t) <==> reply.Aborted?
  {
    OwnLog(cfg, st, t, reply, after, Current(st.sh));
    LastHeard(st.log, after.log, from, t);
    assert after.log[|st.log|].reply == reply;
    assert from <= |st.log|;
  }

  /** True is never returned without an answer, whatever is learnt meanwhile: unless the caller was on
      another host, the host in use has answered this call's own probe. */
  lemma TrueMeansAnswered(cfg: Config, r: Run, t: TaskId, i: nat, j: nat)
    requires Stay(cfg, r, t, i, j)
    ensures t in r.states[j].tasks
    ensures var before, after, cause := r.states[i], r.states[j], CauseOf(r.states[i], t);
      ToldOf(after.tasks[t].pc, cause) == Some(true) && !Elsewhere(cause, before.sh) ==>
        InRange(after.sh) && Answering(after.log, |before.log|, t, Current(after.sh))
  {
    if j == i + 1 {
      Enters(cfg, r.states[i], t);
    } else {
      var st, a := r.states[j - 1], r.acts[j - 1];
      StayEnds(cfg, r, t, i, j);
      SilentSoFar(cfg, r, t, i, j, j - 1);
      LastWord(cfg, st, t, a.reply, r.states[j], r.states[i].sh.index, CauseOf(r.states[i], t), |r.states[i].log|, Current(st.sh));
    }
  }

  /** No list is replaced while the task is inside. */
  ghost predicate OnlyAdds(r: Run, i: nat, j: nat) {
    j <= |r.acts| && forall m {:trigger r.acts[m]} :: i <= m < j && r.acts[m].LearnHosts? ==> !r.acts[m].replace
  }

  /** What the verdict says of the host in use. */
  ghost predicate Means(before: State, after: State, t: TaskId, cause: Cause)
    requires InRange(before.sh) && InRange(after.sh) && t in after.tasks
  {
    var told, home, now, log, from := ToldOf(after.tasks[t].pc, cause), Current(before.sh), Current(after.sh), after.log, |before.log|;
    && (told.None? <==> Torn(log, from, t))
    && (told.Some? ==> (now != home <==> exists h :: h != home && Answering(log, from, t, h)))
    && (told == Some(true) && now == home <==> Elsewhere(cause, before.sh))
    && (told == Some(true) && now != home ==> Answering(log, from, t, now))
    && (told == Some(false) ==> now == home)
  }

  lemma MeansAtOnce(cfg: Config, before: State, t: TaskId)
    requires Safe(cfg, before) && Enabled(cfg, before, Acquire(t)) && Perform(cfg, before, Acquire(t)).lock != Some(t)
    ensures var after := Perform(cfg, before, Acquire(t));
      InRange(after.sh) && Means(before, after, t, before.tasks[t].pc.cause)
  {
    Enters(cfg, before, t);
    EntersSilently(cfg, before, t);
  }

  lemma MeansInTheEnd(cfg: Config, before: State, st: State, reply: Reply, after: State, t: TaskId, cause: Cause)
    requires HostsOk(cfg, before.sh) && Safe(cfg, st) && before.sh.hosts <= st.sh.hosts
    requires Inside(cfg, st, t, before.sh.index, cause) && Enabled(cfg, st, Deliver(t, reply))
    requires after == Perform(cfg, st, Deliver(t, reply)) && Leaves(st, reply, after, t, before.sh.index, cause)
    requires OnlySilence(st.log, |before.log|, t) && !Elsewhere(cause, before.sh)
    ensures InRange(after.sh) && Means(before, after, t, cause)
  {
    assert st.sh.hosts[before.sh.index] == Current(before.sh);
    LastWord(cfg, st, t, reply, after, before.sh.index, cause, |before.log|, Current(st.sh));
    forall h
      ensures Answering(after.log, |before.log|, t, h) <==> reply.Answered? && h == Current(st.sh)
    {
      LastWord(cfg, st, t, reply, after, before.sh.index, cause, |before.log|, h);
    }
  }

  /** Whether the client moved, and how True comes about, however hosts are added meanwhile: it moved
      exactly if another host than the one it was on answered this call's own probe, and True without a
      move is returned exactly if the caller was on another host. */
  lemma MovedIffAnswered(cfg: Config, r: Run, t: TaskId, i: nat, j: nat)
    requires Stay(cfg, r, t, i, j) && OnlyAdds(r, i, j)
    ensures t in r.states[j].tasks && InRange(r.states[j].sh)
    ensures Means(r.states[i], r.states[j], t, CauseOf(r.states[i], t))
  {
    if j == i + 1 {
      MeansAtOnce(cfg, r.states[i], t);
    } else {
      var reply := LastReply(cfg, r, t, i, j);
      SilentSoFar(cfg, r, t, i, j, j - 1);
      InsideIsHere(cfg, r, t, i, j);
      MeansInTheEnd(cfg, r.states[i], r.states[j - 1], reply, r.states[j], t, CauseOf(r.states[i], t));
    }
  }

  lemma LastReply(cfg: Config, r: Run, t: TaskId, i: nat, j: nat) returns (reply: Reply)
    requires Stay(cfg, r, t, i, j) && i + 1 < j && OnlyAdds(r, i, j)
    ensures Safe(cfg, r.states[j - 1]) && r.states[i].sh.hosts <= r.states[j - 1].sh.hosts
    ensures InsideAt(cfg, r, t, i, j - 1) && t in r.states[j].tasks
    ensures Enabled(cfg, r.states[j - 1], Deliver(t, reply)) && r.states[j] == Perform(cfg, r.states[j - 1], Deliver(t, reply))
    ensures Leaves(r.states[j - 1], reply, r.states[j], t, r.states[i].sh.index, CauseOf(r.states[i], t))
  {
    StayEnds(cfg, r, t, i, j);
    CalmPart(cfg, r, t, i, j, j - 1);
    reply := r.acts[j - 1].reply;
  }

  lemma InsideIsHere(cfg: Config, r: Run, t: TaskId, i: nat, j: nat)
    requires Stay(cfg, r, t, i, j) && i + 1 < j
    ensures !Elsewhere(CauseOf(r.states[i], t), r.states[i].sh)
  {
    assert r.states[i + 1].lock == Some(t);
    Enters(cfg, r.states[i], t);
  }

  /** With a list replaced inside, True can come without a move and without another caller's: three hosts,
      a walk from the first, and a fresh list without the third make it come by the first again. */
  lemma TrueWithoutMoving(a: Host, b: Host, c: Host) returns (start: Run, r: Run)
    requires a != b && a != c && b != c && b != "" && c != ""
    ensures IsInitialRun(Config(a, ApiToken), start) && IsInitialRun(Config(a, ApiToken), r) && Later(start, r)
    ensures Last(start).sh.hosts == [a, b, c] && Last(start).sh.index == 0 && Last(start).lock.None?
    ensures 0 in Last(start).tasks && Last(start).tasks[0].pc == WantSwitch(Consumer(None, false))
    ensures 0 in Last(r).tasks && Last(r).tasks[0].pc == Done(Switched(true))
    ensures Last(r).sh.hosts == [a, b] && Last(r).sh.index == 0 && Last(r).sh.baseUrl == Base(a)
  {
    start := WalkOverThree(a, b, c);
    var cfg := Config(a, ApiToken);
    var shrunk := ShrinksToTwo(cfg, start, a, b, c);
    r := ComesByTheFirst(cfg, shrunk, a, b);
  }

  lemma ShrinksToTwo(cfg: Config, start: Run, a: Host, b: Host, c: Host) returns (shrunk: Run)
    requires IsInitialRun(cfg, start) && a != b && a != c && b != c && b != ""
    requires var st := Last(start);
      && st.sh.hosts == [a, b, c] && st.sh.index == 0 && st.lock.None?
      && 0 in st.tasks && st.tasks[0].pc == WantSwitch(Consumer(None, false))
    ensures IsInitialRun(cfg, shrunk) && Later(start, shrunk)
    ensures var st := Last(shrunk);
      && st.sh.hosts == [a, b] && st.sh.index == 1 && 0 in st.tasks
      && st.tasks[0].pc == Walking(0, 1, 3, Consumer(None, false))
      && st.tasks[0].flight.Some? && st.tasks[0].flight.value.call.Probe?
  {
    var asked := Prolong(cfg, start, Acquire(0));
    assert Last(asked).tasks[0].pc == Walking(0, 1, 3, Consumer(None, false)) && Last(asked).sh.index == 1;
    shrunk := Prolong(cfg, asked, LearnHosts([Named(b)], true));
    assert Kept([a], [Named(b)]) == Kept([a, b], []);
    assert Last(shrunk).sh.hosts == [a, b];
    assert Later(start, asked);
  }

  /** `r` goes on where `start` stopped. */
  ghost predicate Later(start: Run, r: Run) {
    start.states <= r.states && start.acts <= r.acts
  }

  lemma ComesByTheFirst(cfg: Config, shrunk: Run, a: Host, b: Host) returns (r: Run)
    requires IsInitialRun(cfg, shrunk) && a != b
    requires var st := Last(shrunk);
      && st.sh.hosts == [a, b] && st.sh.index == 1 && 0 in st.tasks
      && st.tasks[0].pc == Walking(0, 1, 3, Consumer(None, false))
      && st.tasks[0].flight.Some? && st.tasks[0].flight.value.call.Probe?
    ensures IsInitialRun(cfg, r) && Later(shrunk, r)
    ensures 0 in Last(r).tasks && Last(r).tasks[0].pc == Done(Switched(true))
    ensures Last(r).sh.hosts == [a, b] && Last(r).sh.index == 0 && Last(r).sh.baseUrl == Base(a)
  {
    var next := Prolong(cfg, shrunk, Deliver(0, Unreachable));
    assert Last(next).tasks[0].pc == Walking(0, 2, 3, Consumer(None, false)) && Last(next).sh.index == 0;
    r := Prolong(cfg, next, Deliver(0, Answered(200)));
    assert Later(shrunk, next);
  }

  lemma WalkOverThree(a: Host, b: Host, c: Host) returns (r: Run)
    requires a != b && a != c && b != c && b != "" && c != ""
    ensures IsInitialRun(Config(a, ApiToken), r) && IsCalm(r)
    ensures Last(r).sh == Shared([a, b, c], 0, Base(a), Unset, "", "", 0.0) && Last(r).lock.None?
    ensures Last(r).tasks.Keys == {0} && Last(r).tasks[0].pc == WantSwitch(Consumer(None, false)) && Last(r).log == []
  {
    var cfg := Config(a, ApiToken);
    r := TwoHosts(a, b);
    assert Kept([a, b], [Named(c)]) == Kept([a, b] + [c], []);
    r := ProlongCalmly(cfg, r, LearnHosts([Named(c)], false));
    assert Last(r).sh.hosts == [a, b, c];
    r := ProlongCalmly(cfg, r, CallFailover(0, None, false));
  }
}
