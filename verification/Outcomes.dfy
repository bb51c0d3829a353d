/** How a `request` ends, read off what it was told: every result and every error a caller sees is
    explained by replies to that very call. */
module Outcomes {
  import opened Wrappers
  import opened Protocol
  import opened HostSafety
  import Moves

  /** The calls of a request: its two attempts, and the posts for a ticket. */
  datatype Which = FirstTry | SecondTry | TicketPost | AnyCall

  predicate Matches(which: Which, call: Call) {
    match which
    case FirstTry => call.Data? && call.before.Some?
    case SecondTry => call.Data? && call.before.None?
    case TicketPost => call.Login? || call.Challenge?
    case AnyCall => true
  }

  /** `LoggedIn` is the answer that completes a login, `Unusable` one that the code stumbles over. */
  datatype Told = Exactly(reply: Reply) | LoggedIn | Unusable

  predicate Says(call: Call, reply: Reply, told: Told) {
    match told
    case Exactly(r) => reply == r
    case LoggedIn =>
      && reply.Granted? && reply.ticket.Some? && reply.csrf.Some?
      && (call.Challenge? || (call.Login? && reply.rest == Complete))
    case Unusable =>
      && reply.Granted?
      && (reply.ticket.None? || reply.csrf.None? || (call.Login? && reply.rest == BadCapabilities))
  }

  ghost predicate Heard(log: seq<Event>, t: TaskId, which: Which, told: Told) {
    exists k :: 0 <= k < |log| && log[k].Got? && log[k].task == t && Matches(which, log[k].call) && Says(log[k].call, log[k].reply, told)
  }

  ghost predicate HeardFirst(log: seq<Event>, t: TaskId, reply: Reply) {
    Heard(log, t, FirstTry, Exactly(reply))
  }

  ghost predicate HeardAgain(log: seq<Event>, t: TaskId, reply: Reply) {
    Heard(log, t, SecondTry, Exactly(reply))
  }

  ghost predicate HeardPost(log: seq<Event>, t: TaskId, reply: Reply) {
    Heard(log, t, TicketPost, Exactly(reply))
  }

  /** The first attempt was refused with a 401, and after that a login was completed. */
  ghost predicate Relogged(log: seq<Event>, t: TaskId) {
    exists i, j :: 0 <= i < j < |log|
                   && log[i].Got? && log[i].task == t && Matches(FirstTry, log[i].call) && log[i].reply == Answered(401)
                   && log[j].Got? && log[j].task == t && Matches(TicketPost, log[j].call) && Says(log[j].call, log[j].reply, LoggedIn)
  }

  /** The wait for the lock was cancelled. */
  ghost predicate Withdrawn(log: seq<Event>, t: TaskId) {
    exists k :: 0 <= k < |log| && log[k] == Cancelled(t)
  }

  ghost predicate HeardEither(log: seq<Event>, t: TaskId, reply: Reply) {
    HeardFirst(log, t, reply) || HeardAgain(log, t, reply)
  }

  /** The last login a task has posted: what it sent as the password. */
  function LastLogin(log: seq<Event>, t: TaskId): Option<string> {
    if log == [] then None
    else
      var e := log[|log| - 1];
      if e.Sent? && e.task == t && e.call.Login? then Some(e.call.password) else LastLogin(log[..|log| - 1], t)
  }

  /** The last login was one with the password, not a renewal. */
  predicate TriedPassword(cfg: Config, log: seq<Event>, t: TaskId) {
    && LastLogin(log, t).Some? && cfg.auth.Password?
    && (cfg.auth.secret != "" ==> LastLogin(log, t).value == cfg.auth.secret)
  }

  /** A login with the password, or its TFA step, was refused. */
  ghost predicate PasswordRefused(cfg: Config, log: seq<Event>, t: TaskId) {
    exists k :: 0 <= k < |log| && log[k].Got? && log[k].task == t && Matches(TicketPost, log[k].call)
                && log[k].reply == Refused && TriedPassword(cfg, log[..k], t)
  }

  /** Why a call ended as it did.  A 401 reaches a password caller only after the request was
      repeated; no error of the client's own bookkeeping reaches anybody. */
  ghost predicate Explained(cfg: Config, log: seq<Event>, t: TaskId, outcome: Outcome) {
    match outcome
    case Success => HeardEither(log, t, Answered(200)) || HeardEither(log, t, Answered(201))
    case Switched(_) => false
    case Raised(fault) =>
      match fault
      case ApiFault(status) =>
        && status != 200 && status != 201
        && if status == 401 && cfg.auth.Password? then HeardAgain(log, t, Answered(401))
           else HeardEither(log, t, Answered(status))
      case AuthFault => PasswordRefused(cfg, log, t)
      case Connection => HeardEither(log, t, Unreachable) || HeardPost(log, t, Unreachable)
      case ClientFault => HeardEither(log, t, Broken) || HeardPost(log, t, Broken)
      case IndexFault => false
      case OtherFault =>
        Heard(log, t, AnyCall, Exactly(Aborted)) || Heard(log, t, TicketPost, Unusable) || Withdrawn(log, t)
  }

  /** Why a call under way is where it is: it moves only when a host was out of reach, and sends a
      request again only after that or after logging in again for a 401. */
  ghost predicate Grounds(cfg: Config, log: seq<Event>, t: TaskId, pc: Pc) {
    match pc
    case LoggingIn(why, _) =>
      && !why.Direct? && cfg.auth.Password?
      && (why.Refused401? ==> HeardFirst(log, t, Answered(401)))
      && (why.Fallback? ==> HeardPost(log, t, Refused))
    case WantSwitch(cause) => CauseHeard(log, t, cause)
    case Asking(_, cause) => CauseHeard(log, t, cause)
    case Walking(_, _, _, cause) => CauseHeard(log, t, cause)
    case Trying(_, _) => true
    case Repeating =>
      || HeardFirst(log, t, Unreachable)
      || (cfg.auth.Password? && Relogged(log, t))
    case Done(outcome) => Explained(cfg, log, t, outcome)
  }

  ghost predicate CauseHeard(log: seq<Event>, t: TaskId, cause: Cause) {
    match cause
    case RenewalFailed => HeardPost(log, t, Unreachable)
    case RequestFailed(_) => HeardFirst(log, t, Unreachable)
    case Consumer(_, _) => false
  }

  lemma HeardLater(log: seq<Event>, longer: seq<Event>, t: TaskId, which: Which, told: Told)
    requires log <= longer && Heard(log, t, which, told)
    ensures Heard(longer, t, which, told)
  {
    var k :| 0 <= k < |log| && log[k].Got? && log[k].task == t && Matches(which, log[k].call) && Says(log[k].call, log[k].reply, told);
    assert longer[k] == log[k];
  }

  lemma ReloggedLater(log: seq<Event>, longer: seq<Event>, t: TaskId)
    requires log <= longer && Relogged(log, t)
    ensures Relogged(longer, t)
  {
    var i, j :| 0 <= i < j < |log|
                && log[i].Got? && log[i].task == t && Matches(FirstTry, log[i].call) && log[i].reply == Answered(401)
                && log[j].Got? && log[j].task == t && Matches(TicketPost, log[j].call) && Says(log[j].call, log[j].reply, LoggedIn);
    assert longer[i] == log[i] && longer[j] == log[j];
  }

  lemma GroundsLater(cfg: Config, log: seq<Event>, longer: seq<Event>, t: TaskId, pc: Pc)
    requires log <= longer && Grounds(cfg, log, t, pc)
    ensures Grounds(cfg, longer, t, pc)
  {
    forall which, told | Heard(log, t, which, told)
      ensures Heard(longer, t, which, told)
    {
      HeardLater(log, longer, t, which, told);
    }
    if Relogged(log, t) {
      ReloggedLater(log, longer, t);
    }
    if Withdrawn(log, t) {
      var k :| 0 <= k < |log| && log[k] == Cancelled(t);
      assert longer[k] == log[k];
    }
    if PasswordRefused(cfg, log, t) {
      RefusedLater(cfg, log, longer, t);
    }
  }

  lemma RefusedLater(cfg: Config, log: seq<Event>, longer: seq<Event>, t: TaskId)
    requires log <= longer && PasswordRefused(cfg, log, t)
    ensures PasswordRefused(cfg, longer, t)
  {
    var k :| 0 <= k < |log| && log[k].Got? && log[k].task == t && Matches(TicketPost, log[k].call)
             && log[k].reply == Refused && TriedPassword(cfg, log[..k], t);
    assert longer[k] == log[k] && longer[..k] == log[..k];
  }

  // ---- one task ------------------------------------------------------------------------------------------

  /** A reply just put on record has been heard. */
  lemma JustHeard(log: seq<Event>, t: TaskId, url: Url, call: Call, reply: Reply, which: Which, told: Told)
    requires Matches(which, call) && Says(call, reply, told)
    ensures Heard(log + [Got(t, url, call, reply)], t, which, told)
  {
    assert (log + [Got(t, url, call, reply)])[|log|] == Got(t, url, call, reply);
  }

  /** The answer comes after what was heard before. */
  lemma JustRelogged(log: seq<Event>, t: TaskId, url: Url, call: Call, reply: Reply)
    requires HeardFirst(log, t, Answered(401)) && Matches(TicketPost, call) && Says(call, reply, LoggedIn)
    ensures Relogged(log + [Got(t, url, call, reply)], t)
  {
    var longer := log + [Got(t, url, call, reply)];
    var k :| 0 <= k < |log| && log[k].Got? && log[k].task == t && Matches(FirstTry, log[k].call)
             && Says(log[k].call, log[k].reply, Exactly(Answered(401)));
    assert longer[k] == log[k] && longer[|log|] == Got(t, url, call, reply);
  }

  lemma JustRefused(cfg: Config, log: seq<Event>, t: TaskId, url: Url, call: Call)
    requires Matches(TicketPost, call) && TriedPassword(cfg, log, t)
    ensures PasswordRefused(cfg, log + [Got(t, url, call, Refused)], t)
  {
    var longer := log + [Got(t, url, call, Refused)];
    assert longer[|log|] == Got(t, url, call, Refused) && longer[..|log|] == log;
  }

  lemma CheckGrounds(cfg: Config, sh: Shared, round: Round, read: real, fault: Option<Fault>, log: seq<Event>, t: TaskId)
    requires InRange(sh)
    requires fault.Some? ==> Explained(cfg, log, t, Raised(fault.value))
    requires fault == Some(Connection) ==> HeardPost(log, t, Unreachable)
    ensures Grounds(cfg, log, t, AfterCheck(cfg, sh, round, read, fault).pc)
  {
  }

  /** What an answer of `access/ticket` leaves to explain. */
  lemma LoginGrounds(cfg: Config, sh: Shared, why: LoginFor, tfa: bool, call: Call, reply: Reply, now: real, log: seq<Event>, t: TaskId)
    requires InRange(sh) && Grounds(cfg, log, t, LoggingIn(why, tfa))
    requires Fits(call, reply) && if tfa then call.Challenge? else call.Login?
    requires HeardPost(log, t, reply) && Heard(log, t, AnyCall, Exactly(reply))
    requires Says(call, reply, Unusable) ==> Heard(log, t, TicketPost, Unusable)
    requires Says(call, reply, LoggedIn) && why.Refused401? ==> Relogged(log, t)
    requires reply == Refused && !why.Renewal? ==> PasswordRefused(cfg, log, t)
    ensures Grounds(cfg, log, t, OnLogin(cfg, sh, why, tfa, reply, now).pc)
  {
    var stored := StoreTokens(sh, reply, now);
    var fault := LoginFault(reply, tfa);
    assert InRange(stored);
    if !NeedsCode(reply, tfa) {
      match why {
        case Renewal(round, read) =>
          if fault != Some(AuthFault) {
            CheckGrounds(cfg, stored, round, read, fault, log, t);
          }
        case Fallback(round, read) => CheckGrounds(cfg, stored, round, read, fault, log, t);
        case _ =>
      }
    }
  }

  lemma FailoverGrounds(cfg: Config, sh: Shared, cause: Cause, verdict: Verdict, now: real, log: seq<Event>, t: TaskId)
    requires InRange(sh) && CauseHeard(log, t, cause)
    requires verdict.Threw? ==> verdict.fault == OtherFault && Heard(log, t, AnyCall, Exactly(Aborted))
    ensures Grounds(cfg, log, t, AfterFailover(cfg, sh, cause, verdict, now).pc)
  {
  }

  lemma WalkOnGrounds(cfg: Config, sh: Shared, start: nat, offset: nat, limit: nat, cause: Cause, now: real,
                      log: seq<Event>, t: TaskId)
    requires InRange(sh) && CauseHeard(log, t, cause) && start < |sh.hosts|
    ensures Grounds(cfg, log, t, WalkOn(cfg, sh, start, offset, limit, cause, now).pc)
  {
    if offset >= limit {
      FailoverGrounds(cfg, UseHost(sh, start), cause, Moved(false), now, log, t);
    }
  }

  lemma EnterGrounds(cfg: Config, sh: Shared, cause: Cause, now: real, log: seq<Event>, t: TaskId)
    requires InRange(sh) && CauseHeard(log, t, cause)
    ensures Grounds(cfg, log, t, EnterFailover(cfg, sh, cause, now).pc)
  {
    FailoverGrounds(cfg, sh, cause, Moved(true), now, log, t);
    WalkOnGrounds(cfg, sh, sh.index, 1, |sh.hosts|, cause, now, log, t);
  }

  lemma InsideGrounds(cfg: Config, sh: Shared, pc: Pc, flight: Option<Flight>, reply: Reply, now: real, log: seq<Event>, t: TaskId)
    requires Holds(pc) && HostsOk(cfg, sh) && WalkOk(sh, pc, flight) && Grounds(cfg, log, t, pc)
    requires flight.Some? && Fits(flight.value.call, reply) && Heard(log, t, AnyCall, Exactly(reply))
    ensures Grounds(cfg, log, t, Resume(cfg, sh, pc, reply, now).pc)
  {
    match Hear(sh, reply) {
      case No =>
        match pc {
          case Asking(start, cause) => WalkOnGrounds(cfg, sh, start, 1, |sh.hosts|, cause, now, log, t);
          case Walking(start, offset, limit, cause) => WalkOnGrounds(cfg, sh, start, offset + 1, limit, cause, now, log, t);
        }
      case Yes => FailoverGrounds(cfg, sh, pc.cause, Moved(pc.Walking?), now, log, t);
      case Mute(fault) => FailoverGrounds(cfg, sh, pc.cause, Threw(fault), now, log, t);
    }
  }

  lemma AttemptGrounds(cfg: Config, sh: Shared, pc: Pc, flight: Flight, reply: Reply, now: real, log: seq<Event>, t: TaskId)
    requires (pc.Trying? || pc.Repeating?) && Shaped(pc, Some(flight)) && Fits(flight.call, reply)
    requires if pc.Trying? then HeardFirst(log, t, reply) else HeardAgain(log, t, reply)
    requires Heard(log, t, AnyCall, Exactly(reply))
    requires Grounds(cfg, log, t, pc)
    ensures Grounds(cfg, log, t, Resume(cfg, sh, pc, reply, now).pc)
  {
  }

  // ---- all tasks -----------------------------------------------------------------------------------------

  /** A task that waits for any login but a renewal has sent the password. */
  predicate SentPassword(cfg: Config, log: seq<Event>, t: TaskId, pc: Pc) {
    pc.LoggingIn? && !pc.why.Renewal? ==> TriedPassword(cfg, log, t)
  }

  ghost predicate TaskOk(cfg: Config, st: State, t: TaskId) {
    t in st.tasks ==>
      && Shaped(st.tasks[t].pc, st.tasks[t].flight) && Grounds(cfg, st.log, t, st.tasks[t].pc)
      && SentPassword(cfg, st.log, t, st.tasks[t].pc)
  }

  /** What a step sends when it goes on logging in: the password, or the code of the same login. */
  predicate LogsInAs(cfg: Config, pc: Pc, next: Next) {
    next.pc.LoggingIn? && !next.pc.why.Renewal? ==>
      && next.flight.Some?
      && if next.pc.tfa then pc == LoggingIn(next.pc.why, false) && next.flight.value.call.Challenge?
         else next.flight.value.call.Login? && cfg.auth.Password?
              && (cfg.auth.secret != "" ==> next.flight.value.call.password == cfg.auth.secret)
  }

  lemma ResumeLogsInAs(cfg: Config, sh: Shared, pc: Pc, flight: Option<Flight>, reply: Reply, now: real)
    requires pc.LoggingIn? ==> cfg.auth.Password?
    ensures LogsInAs(cfg, pc, Resume(cfg, sh, pc, reply, now))
  {
  }

  lemma LastLoginPlus(log: seq<Event>, e: Event, t: TaskId)
    ensures LastLogin(log + [e], t) == if e.Sent? && e.task == t && e.call.Login? then Some(e.call.password) else LastLogin(log, t)
  {
    assert (log + [e])[..|log|] == log;
  }

  lemma ApplyGrounds(cfg: Config, st: State, t: TaskId, pc: Pc, next: Next)
    requires Grounds(cfg, st.log, t, next.pc) && Shaped(next.pc, next.flight)
    requires LogsInAs(cfg, pc, next) && SentPassword(cfg, st.log, t, pc)
    ensures TaskOk(cfg, Apply(st, t, next), t)
  {
    var after := Apply(st, t, next);
    GroundsLater(cfg, st.log, after.log, t, next.pc);
    if next.flight.Some? {
      var e := Sent(t, next.flight.value.url, next.flight.value.call);
      assert after.log == st.log + [e];
      LastLoginPlus(st.log, e, t);
    }
  }

  /** What a task makes of a reply is grounded in it and in what was heard before. */
  lemma ReplyGrounds(cfg: Config, sh: Shared, pc: Pc, f: Flight, reply: Reply, now: real, log: seq<Event>, t: TaskId)
    requires HostsOk(cfg, sh) && (Holds(pc) ==> WalkOk(sh, pc, Some(f)))
    requires Shaped(pc, Some(f)) && Fits(f.call, reply) && Grounds(cfg, log, t, pc) && SentPassword(cfg, log, t, pc)
    ensures Grounds(cfg, log + [Got(t, f.url, f.call, reply)], t, Resume(cfg, sh, pc, reply, now).pc)
  {
    var longer := log + [Got(t, f.url, f.call, reply)];
    GroundsLater(cfg, log, longer, t, pc);
    forall which, told | Matches(which, f.call) && Says(f.call, reply, told)
      ensures Heard(longer, t, which, told)
    {
      JustHeard(log, t, f.url, f.call, reply, which, told);
    }
    assert Says(f.call, reply, Exactly(reply)) && Matches(AnyCall, f.call);
    match pc {
      case LoggingIn(why, tfa) =>
        assert Matches(TicketPost, f.call);
        if why.Refused401? && Says(f.call, reply, LoggedIn) {
          JustRelogged(log, t, f.url, f.call, reply);
        }
        if reply == Refused && !why.Renewal? {
          JustRefused(cfg, log, t, f.url, f.call);
        }
        LoginGrounds(cfg, sh, why, tfa, f.call, reply, now, longer, t);
      case Asking(_, _) => InsideGrounds(cfg, sh, pc, Some(f), reply, now, longer, t);
      case Walking(_, _, _, _) => InsideGrounds(cfg, sh, pc, Some(f), reply, now, longer, t);
      case Trying(_, _) =>
        assert Matches(FirstTry, f.call);
        AttemptGrounds(cfg, sh, pc, f, reply, now, longer, t);
      case Repeating =>
        assert Matches(SecondTry, f.call);
        AttemptGrounds(cfg, sh, pc, f, reply, now, longer, t);
    }
  }

  lemma DeliverGrounds(cfg: Config, st: State, t: TaskId, reply: Reply)
    requires Safe(cfg, st) && Enabled(cfg, st, Deliver(t, reply)) && TaskOk(cfg, st, t)
    ensures TaskOk(cfg, Perform(cfg, st, Deliver(t, reply)), t)
  {
    var pc, flight := st.tasks[t].pc, st.tasks[t].flight;
    var noted := Noted(st, t, reply);
    ResumeShaped(cfg, st.sh, pc, reply, st.now);
    if flight.Some? {
      ReplyGrounds(cfg, st.sh, pc, flight.value, reply, st.now, st.log, t);
    } else {
      assert noted.log[|st.log|] == Cancelled(t);
    }
    ResumeLogsInAs(cfg, st.sh, pc, flight, reply, st.now);
    LastLoginPlus(st.log, Note(t, flight, reply), t);
    ApplyGrounds(cfg, noted, t, pc, Resume(cfg, st.sh, pc, reply, st.now));
  }

  lemma GroundsStep(cfg: Config, st: State, a: Action, t: TaskId)
    requires Safe(cfg, st) && Enabled(cfg, st, a) && TaskOk(cfg, st, t)
    requires a != CallLogin(t) && !(a.CallFailover? && a.task == t)
    ensures TaskOk(cfg, Perform(cfg, st, a), t)
  {
    if ActsAs(a, t) {
      match a {
        case Begin(_) =>
          CheckGrounds(cfg, st.sh, First, st.now, None, st.log, t);
          ApplyGrounds(cfg, st, t, Repeating, BeginCheck(cfg, st.sh, First, st.now));
        case Acquire(_) =>
          var next := EnterFailover(cfg, st.sh, st.tasks[t].pc.cause, st.now);
          EnterGrounds(cfg, st.sh, st.tasks[t].pc.cause, st.now, st.log, t);
          PerformShaped(cfg, st, a, t);
          ApplyGrounds(cfg, st, t, st.tasks[t].pc, next);
        case Deliver(_, reply) => DeliverGrounds(cfg, st, t, reply);
      }
    } else if t in st.tasks {
      OthersGrounds(cfg, st, a, t);
    }
  }

  lemma OthersGrounds(cfg: Config, st: State, a: Action, t: TaskId)
    requires Enabled(cfg, st, a) && !ActsAs(a, t) && t in st.tasks && TaskOk(cfg, st, t)
    ensures TaskOk(cfg, Perform(cfg, st, a), t)
  {
    Moves.PerformLogs(cfg, st, a);
    GroundsLater(cfg, st.log, Perform(cfg, st, a).log, t, st.tasks[t].pc);
    OthersLogins(cfg, st, a, t);
  }

  lemma OthersLogins(cfg: Config, st: State, a: Action, t: TaskId)
    requires Enabled(cfg, st, a) && !ActsAs(a, t)
    ensures LastLogin(Perform(cfg, st, a).log, t) == LastLogin(st.log, t)
  {
    match a {
      case Tick(_) =>
      case LearnHosts(_, _) =>
      case Deliver(u, reply) =>
        LastLoginPlus(st.log, Note(u, st.tasks[u].flight, reply), t);
        OthersSending(Noted(st, u, reply).log, u, Perform(cfg, st, a).tasks[u].flight, t);
      case _ => OthersSending(st.log, a.task, Perform(cfg, st, a).tasks[a.task].flight, t);
    }
  }

  lemma OthersSending(log: seq<Event>, u: TaskId, flight: Option<Flight>, t: TaskId)
    requires u != t
    ensures LastLogin(log + Emitted(u, flight), t) == LastLogin(log, t)
  {
    if flight.Some? {
      LastLoginPlus(log, Sent(u, flight.value.url, flight.value.call), t);
    } else {
      assert log + Emitted(u, flight) == log;
    }
  }

  /** Every `request` of every calm run is where it is, and ends as it ends, for reasons it was told. */
  lemma {:induction false} EveryOutcomeIsExplained(cfg: Config, r: Run, t: TaskId, i: nat)
    requires IsInitialRun(cfg, r) && IsCalm(r) && i < |r.states|
    requires forall j :: 0 <= j < |r.acts| ==> r.acts[j] != CallLogin(t) && !(r.acts[j].CallFailover? && r.acts[j].task == t)
    ensures TaskOk(cfg, r.states[i], t)
  {
    if i == 0 {
    } else {
      EveryOutcomeIsExplained(cfg, r, t, i - 1);
      ReachableSafe(cfg, r, i - 1);
      GroundsStep(cfg, r.states[i - 1], r.acts[i - 1], t);
    }
  }
}
