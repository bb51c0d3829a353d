/** When the client changes hosts: only onto a host that answered, in whatever company. */
module Moves {
  import opened Wrappers
  import opened Protocol
  import opened HostSafety

  ghost predicate ProbeAnswered(log: seq<Event>, from: nat, h: Host) {
    exists k :: from <= k < |log| && log[k].Got? && log[k].call.Probe? && log[k].url == Base(h) && log[k].reply.Answered?
  }

  /** A probe of this very host that ended in an exception `_answers` does not catch. */
  ghost predicate TornDown(log: seq<Event>, from: nat, h: Host) {
    exists k :: from <= k < |log| && log[k].Got? && log[k].call.Probe? && log[k].url == Base(h) && log[k].reply.Aborted?
  }

  /** A probe that ended in an exception `_answers` does not catch, a cancellation included. */
  ghost predicate ProbeAborted(log: seq<Event>, from: nat) {
    exists k :: from <= k < |log| && log[k].Got? && log[k].call.Probe? && log[k].reply.Aborted?
  }

  /** The index the client returns to if the walk in progress finds nobody. */
  function HomeIndex(st: State): nat {
    if st.lock.Some? && st.lock.value in st.tasks && st.tasks[st.lock.value].pc.Walking?
    then st.tasks[st.lock.value].pc.start
    else st.sh.index
  }

  ghost predicate HomeOk(log: seq<Event>, from: nat, home: Host, h: Host) {
    h == home || ProbeAnswered(log, from, h) || TornDown(log, from, h)
  }

  lemma LogGrows(log: seq<Event>, longer: seq<Event>, from: nat, home: Host, h: Host)
    requires log <= longer && HomeOk(log, from, home, h)
    ensures HomeOk(longer, from, home, h)
  {
    if ProbeAnswered(log, from, h) {
      var k :| from <= k < |log| && log[k].Got? && log[k].call.Probe? && log[k].url == Base(h) && log[k].reply.Answered?;
      assert longer[k] == log[k];
    }
    if TornDown(log, from, h) {
      var k :| from <= k < |log| && log[k].Got? && log[k].call.Probe? && log[k].url == Base(h) && log[k].reply.Aborted?;
      assert longer[k] == log[k];
    }
  }

  lemma PerformLogs(cfg: Config, st: State, a: Action)
    requires Enabled(cfg, st, a)
    ensures st.log <= Perform(cfg, st, a).log
    ensures a.Deliver? && st.tasks[a.task].flight.Some? ==>
              var f := st.tasks[a.task].flight.value;
              |st.log| < |Perform(cfg, st, a).log| && Perform(cfg, st, a).log[|st.log|] == Got(a.task, f.url, f.call, a.reply)
  {
  }

  /** The steps of a walk and of the question before it, seen from the host that stays if
      nobody answers. */
  lemma DeliverInside(cfg: Config, st: State, t: TaskId, reply: Reply)
    requires Safe(cfg, st) && Enabled(cfg, st, Deliver(t, reply)) && Holds(st.tasks[t].pc)
    ensures var after := Perform(cfg, st, Deliver(t, reply));
      && after.sh.hosts == st.sh.hosts
      && HomeIndex(after) < |after.sh.hosts|
      && (|| HomeIndex(after) == HomeIndex(st)
          || ((reply.Answered? || reply.Aborted?) && HomeIndex(after) == st.sh.index))
  {
    var pc := st.tasks[t].pc;
    var flight := st.tasks[t].flight;
    InsideFailover(cfg, st.sh, pc, flight, reply, st.now);
    var heard := Hear(st.sh, reply);
    var next := Resume(cfg, st.sh, pc, reply, st.now);
    if heard.No? {
      match pc {
        case Asking(start, cause) => WalkOnHome(cfg, st.sh, start, 1, |st.sh.hosts|, cause, st.now);
        case Walking(start, offset, limit, cause) => WalkOnHome(cfg, st.sh, start, offset + 1, limit, cause, st.now);
      }
    } else {
      AfterFailoverStays(cfg, st.sh, pc.cause, Moved(pc.Walking?), st.now);
    }
  }

  lemma WalkOnHome(cfg: Config, sh: Shared, start: nat, offset: nat, limit: nat, cause: Cause, now: real)
    requires start < |sh.hosts|
    ensures var next := WalkOn(cfg, sh, start, offset, limit, cause, now);
      if next.pc.Walking? then next.pc.start == start else !Holds(next.pc) && next.sh.index == start
  {
    if offset >= limit {
      AfterFailoverStays(cfg, UseHost(sh, start), cause, Moved(false), now);
    }
  }

  lemma EnterHome(cfg: Config, sh: Shared, cause: Cause, now: real)
    requires HostsOk(cfg, sh)
    ensures var next := EnterFailover(cfg, sh, cause, now);
      next.sh.hosts == sh.hosts &&
      if next.pc.Walking? then next.pc.start == sh.index else next.sh.index == sh.index
  {
    EnterFailoverSafe(cfg, sh, cause, now);
    AfterFailoverStays(cfg, sh, cause, Moved(true), now);
    WalkOnHome(cfg, sh, sh.index, 1, |sh.hosts|, cause, now);
  }

  lemma MoveStep(cfg: Config, st: State, a: Action, from: nat, home: Host)
    requires Safe(cfg, st) && Enabled(cfg, st, a) && Calm(st, a) && from <= |st.log|
    requires HomeIndex(st) < |st.sh.hosts| && HomeOk(st.log, from, home, st.sh.hosts[HomeIndex(st)])
    ensures var after := Perform(cfg, st, a);
      HomeIndex(after) < |after.sh.hosts| && HomeOk(after.log, from, home, after.sh.hosts[HomeIndex(after)])
  {
    var after := Perform(cfg, st, a);
    PerformLogs(cfg, st, a);
    LogGrows(st.log, after.log, from, home, st.sh.hosts[HomeIndex(st)]);
    match a {
      case Acquire(t) => EnterHome(cfg, st.sh, st.tasks[t].pc.cause, st.now);
      case LearnHosts(entries, replace) => LearnKeepsHost(cfg, st.sh, entries, replace);
      case Deliver(t, reply) => MoveOnReply(cfg, st, t, reply, from, home);
      case _ =>
    }
  }

  lemma MoveOnReply(cfg: Config, st: State, t: TaskId, reply: Reply, from: nat, home: Host)
    requires Safe(cfg, st) && Enabled(cfg, st, Deliver(t, reply)) && from <= |st.log|
    requires HomeIndex(st) < |st.sh.hosts| && HomeOk(st.log, from, home, st.sh.hosts[HomeIndex(st)])
    ensures var after := Perform(cfg, st, Deliver(t, reply));
      HomeIndex(after) < |after.sh.hosts| && HomeOk(after.log, from, home, after.sh.hosts[HomeIndex(after)])
  {
    var after := Perform(cfg, st, Deliver(t, reply));
    PerformLogs(cfg, st, Deliver(t, reply));
    LogGrows(st.log, after.log, from, home, st.sh.hosts[HomeIndex(st)]);
    if Holds(st.tasks[t].pc) {
      DeliverInside(cfg, st, t, reply);
    } else {
      OutsideFailover(cfg, st.sh, st.tasks[t].pc, reply, st.now);
    }
  }

  /** However many callers there are: if the host the client is on - or, during a walk, the host
      it returns to - is another than at an earlier moment, then that very host answered a probe
      in between, or a probe of that very host was torn down by an exception. */
  lemma {:induction false} MovesOnlyToAnsweringHosts(cfg: Config, r: Run, i: nat)
    requires IsRun(cfg, r) && IsCalm(r) && i < |r.states|
    requires Safe(cfg, r.states[0]) && r.states[0].lock.None?
    ensures Safe(cfg, r.states[i]) && |r.states[0].log| <= |r.states[i].log|
    ensures HomeIndex(r.states[i]) < |r.states[i].sh.hosts|
    ensures HomeOk(r.states[i].log, |r.states[0].log|, Current(r.states[0].sh), r.states[i].sh.hosts[HomeIndex(r.states[i])])
  {
    if i == 0 {
    } else {
      MovesOnlyToAnsweringHosts(cfg, r, i - 1);
      PerformSafe(cfg, r.states[i - 1], r.acts[i - 1]);
      PerformLogs(cfg, r.states[i - 1], r.acts[i - 1]);
      MoveStep(cfg, r.states[i - 1], r.acts[i - 1], |r.states[0].log|, Current(r.states[0].sh));
    }
  }

  // ---- a single caller ---------------------------------------------------------------------------

  predicate Only(a: Action, t: TaskId) {
    match a
    case Tick(_) => true
    case LearnHosts(_, _) => true
    case Begin(u) => u == t
    case CallFailover(u, _, _) => u == t
    case CallLogin(u) => u == t
    case Acquire(u) => u == t
    case Deliver(u, _) => u == t
  }

  ghost predicate Alone(r: Run, t: TaskId)
    requires |r.states| == |r.acts| + 1
  {
    forall i :: 0 <= i < |r.acts| ==> Only(r.acts[i], t)
  }

  /** An exception that `_answers` lets through, a cancellation included, ends the call on the spot:
      the client stays on the candidate being asked. */
  lemma AbortedProbe(cfg: Config, sh: Shared, pc: Pc, now: real)
    requires Holds(pc)
    ensures Resume(cfg, sh, pc, Aborted, now) == Throw(sh, OtherFault)
  {
    match pc {
      case Asking(start, cause) => assert OnAsked(cfg, sh, start, cause, Mute(OtherFault), now).pc.Done?;
      case Walking(start, offset, limit, cause) =>
        assert OnWalked(cfg, sh, start, offset, limit, cause, Mute(OtherFault), now).pc.Done?;
    }
  }

  predicate Settled(task: Task) {
    task.pc.Done? && task.flight.None?
  }

  ghost predicate AloneOk(st: State, t: TaskId, from: nat) {
    && (forall u :: u in st.tasks && u != t ==> Settled(st.tasks[u]))
    && from <= |st.log|
    && (t in st.tasks ==> Shaped(st.tasks[t].pc, st.tasks[t].flight))
    && (ProbeAborted(st.log, from) ==> t in st.tasks && st.tasks[t].pc == Done(Raised(OtherFault)))
  }

  lemma AloneStep(cfg: Config, st: State, a: Action, t: TaskId, from: nat)
    requires Enabled(cfg, st, a) && Only(a, t) && AloneOk(st, t, from)
    ensures AloneOk(Perform(cfg, st, a), t, from)
  {
    var after := Perform(cfg, st, a);
    PerformLogs(cfg, st, a);
    PerformShaped(cfg, st, a, t);
    if ProbeAborted(after.log, from) && !ProbeAborted(st.log, from) {
      var k :| from <= k < |after.log| && after.log[k].Got? && after.log[k].call.Probe? && after.log[k].reply.Aborted?;
      AbortedProbe(cfg, st.sh, st.tasks[t].pc, st.now);
    }
  }

  lemma {:induction false} AloneStays(cfg: Config, r: Run, t: TaskId, i: nat)
    requires IsRun(cfg, r) && Alone(r, t) && i < |r.states|
    requires AloneOk(r.states[0], t, |r.states[0].log|)
    ensures AloneOk(r.states[i], t, |r.states[0].log|)
  {
    if i == 0 {
    } else {
      AloneStays(cfg, r, t, i - 1);
      AloneStep(cfg, r.states[i - 1], r.acts[i - 1], t, |r.states[0].log|);
    }
  }

  /** One caller, every other one being finished: a call that did not end in some other exception
      has left the client where it was, or on a host that answered one of its probes. */
  lemma SingleCaller(cfg: Config, r: Run, t: TaskId)
    requires IsRun(cfg, r) && IsCalm(r) && Alone(r, t)
    requires Safe(cfg, r.states[0]) && t !in r.states[0].tasks
    requires forall u :: u in r.states[0].tasks ==> Settled(r.states[0].tasks[u])
    requires t in Last(r).tasks && Last(r).tasks[t].pc.Done? && Last(r).tasks[t].pc.outcome != Raised(OtherFault)
    ensures InRange(Last(r).sh)
    ensures || Current(Last(r).sh) == Current(r.states[0].sh)
            || ProbeAnswered(Last(r).log, |r.states[0].log|, Current(Last(r).sh))
  {
    AloneStays(cfg, r, t, |r.acts|);
    MovesOnlyToAnsweringHosts(cfg, r, |r.acts|);
    assert Last(r).lock.None?;
  }

  // ---- a verdict that is no proof ------------------------------------------------------------------

  /** `failover` says True at once, asking nobody, exactly when `from_host` names another host than
      the one in use. */
  lemma TrueWithoutAsking(cfg: Config, sh: Shared, from: Option<Host>, verify: bool, now: real)
    requires HostsOk(cfg, sh)
    ensures EnterFailover(cfg, sh, Consumer(from, verify), now) == Finish(sh, Switched(true))
            <==> from.Some? && from.value != Current(sh)
  {
    if !verify && |sh.hosts| == 1 {
      assert UseHost(sh, sh.index) == sh.(authUrl := sh.baseUrl);
    }
  }

  /** So True does not mean that a working host was found: a request that met a candidate of a walk
      which then gave up is told True, and is repeated on the host nobody has heard from. */
  lemma TrueOnASilentHost(a: Host, b: Host)
    requires a != b && b != ""
    ensures exists r: Run ::
      && IsInitialRun(Config(a, ApiToken), r) && IsCalm(r)
      && 1 in Last(r).tasks && Last(r).tasks[1].pc == Repeating
      && Last(r).tasks[1].flight == Some(Flight(Base(a), Data(None, Token)))
      && forall k :: 0 <= k < |Last(r).log| && Last(r).log[k].Got? ==> Last(r).log[k].reply.Unreachable?
  {
    var cfg := Config(a, ApiToken);
    var r := RequestOnCandidate(a, b);
    r := ProlongSilently(cfg, r, Deliver(0, Unreachable));
    assert Last(r).sh.index == 0 && Last(r).lock.None?;
    r := ProlongSilently(cfg, r, Deliver(1, Unreachable));
    assert Last(r).tasks[1].pc == WantSwitch(RequestFailed(b));
    r := ProlongSilently(cfg, r, Acquire(1));
  }

  lemma RequestOnCandidate(a: Host, b: Host) returns (r: Run)
    requires a != b && b != ""
    ensures IsInitialRun(Config(a, ApiToken), r) && IsCalm(r) && Silent(Last(r).log)
    ensures Last(r).sh == Shared([a, b], 1, Base(b), Base(b), "", "", 0.0) && Last(r).lock == Some(0)
    ensures {0, 1} <= Last(r).tasks.Keys
    ensures Last(r).tasks[0].pc == Walking(0, 1, 2, Consumer(None, false)) && Last(r).tasks[0].flight.Some?
    ensures Last(r).tasks[0].flight.value.call.Probe?
    ensures Last(r).tasks[1].pc.Trying? && Last(r).tasks[1].pc.before == b && Last(r).tasks[1].flight.Some?
    ensures Last(r).tasks[1].flight.value.call.Data?
  {
    var cfg := Config(a, ApiToken);
    r := TwoHosts(a, b);
    r := ProlongSilently(cfg, r, CallFailover(0, None, false));
    r := ProlongSilently(cfg, r, Acquire(0));
    assert Last(r).tasks[0].pc == Walking(0, 1, 2, Consumer(None, false));
    r := ProlongSilently(cfg, r, Begin(1));
  }

  ghost predicate Silent(log: seq<Event>) {
    forall k :: 0 <= k < |log| && log[k].Got? ==> log[k].reply.Unreachable?
  }

  lemma ProlongSilently(cfg: Config, r: Run, a: Action) returns (longer: Run)
    requires IsInitialRun(cfg, r) && IsCalm(r) && Enabled(cfg, Last(r), a) && !a.LearnHosts?
    requires Silent(Last(r).log) && (a.Deliver? ==> a.reply.Unreachable?)
    ensures IsInitialRun(cfg, longer) && IsCalm(longer) && Last(longer) == Perform(cfg, Last(r), a)
    ensures Silent(Last(longer).log)
  {
    longer := ProlongCalmly(cfg, r, a);
  }
}
