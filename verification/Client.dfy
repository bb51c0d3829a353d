/** The client as the source writes it: two objects with fields, methods that update them, and
    awaits at which other callers run.  Every method is proved to be one task of the protocol, so
    what is proved of runs holds of this code. */
module Client {
  import opened Wrappers
  import opened Protocol
  import HostSafety
  import Budget
  import Recovery

  /** What happens while a caller is suspended: steps of other callers, then its reply. */
  datatype Turn = Turn(others: seq<Action>, reply: Reply)

  /** `later` goes on where `run` stopped. */
  ghost predicate Continues(run: Run, later: Run) {
    run.states <= later.states && run.acts <= later.acts
  }

  lemma StaysOnRecord(run: Run, later: Run, a: Action)
    requires Continues(run, later) && a in run.acts
    ensures a in later.acts
  {
    var i :| 0 <= i < |run.acts| && run.acts[i] == a;
    assert later.acts[i] == a;
  }

  class HttpAuth {
    const auth: Auth
    var baseUrl: Url
    var ticket: string
    var csrf: string
    var birth: real

    constructor (auth: Auth, baseUrl: Url)
      ensures this.auth == auth && this.baseUrl == baseUrl && ticket == "" && csrf == "" && birth == 0.0
    {
      this.auth := auth;
      this.baseUrl := baseUrl;
      ticket, csrf, birth := "", "", 0.0;
    }
  }

  class ProxmoxVe {
    const cfg: Config
    const auth: HttpAuth
    var hosts: Hosts
    var index: nat
    var baseUrl: Url

    // The event loop: the lock, the clock, the other callers and what they see of the fields.
    var world: State
    const fate: nat -> Turn
    var cursor: nat

    // Every step taken so far, and the state in which the last one of this caller was taken.
    ghost var run: Run
    ghost var at: State

    function Fields(): Shared
      reads this, auth
    {
      Shared(hosts, index, baseUrl, auth.baseUrl, auth.ticket, auth.csrf, auth.birth)
    }

    ghost predicate Recorded()
      reads this, auth
    {
      IsInitialRun(cfg, run) && Last(run) == world && auth.auth == cfg.auth
    }

    /** Nobody is between two awaits: the fields are what every caller sees. */
    ghost predicate Idle()
      reads this, auth
    {
      Recorded() && Fields() == world.sh
    }

    /** Task `t` is between two awaits; `next` says what it will have done at the second one. */
    ghost predicate Running(t: TaskId, next: Next)
      reads this, auth
    {
      Recorded() && world == Apply(at, t, next) && world.now == at.now
    }

    constructor (cfg: Config, fate: nat -> Turn, now: real)
      requires now >= 0.0
      ensures Idle() && fresh(auth) && this.cfg == cfg && world == Init(cfg, now)
    {
      this.cfg := cfg;
      this.auth := new HttpAuth(cfg.auth, if cfg.auth.Password? then Base(cfg.configured) else Unset);
      hosts, index, baseUrl := [cfg.configured], 0, Base(cfg.configured);
      this.fate, cursor := fate, 0;
      world := Init(cfg, now);
      run, at := Run([Init(cfg, now)], []), Init(cfg, now);
    }

    // ---- the hosts ---------------------------------------------------------------------------------

    /** False is the IndexError of reading the list: the index has been written by then. */
    method UseHost(i: nat) returns (ok: bool)
      modifies this`index, this`baseUrl, auth`baseUrl
      ensures Fields() == Protocol.UseHost(old(Fields()), i) && ok == (i < |hosts|)
    {
      index := i;
      if i >= |hosts| {
        return false;
      }
      baseUrl := Base(hosts[i]);
      auth.baseUrl := baseUrl;
      ok := true;
    }

    /** `learn_hosts` on the fields; False is the IndexError of a stale index. */
    method Merge(entries: seq<Entry>, replace: bool) returns (ok: bool)
      modifies this`hosts, this`index
      ensures Fields() == Learn(old(Fields()), entries, replace)
      ensures ok == InRange(old(Fields()))
    {
      if index >= |hosts| {
        return false;
      }
      var current := hosts[index];
      var kept: Hosts := if replace then [hosts[0]] else hosts;
      ghost var start := kept;
      for i := 0 to |entries|
        invariant Kept(kept, entries[i..]) == Kept(start, entries)
      {
        assert entries[i..][0] == entries[i] && entries[i..][1..] == entries[i + 1..];
        if entries[i].Named? && entries[i].host != "" && entries[i].host !in kept {
          kept := kept + [entries[i].host];
        }
      }
      if current !in kept {
        kept := kept + [current];
      }
      hosts, index := kept, IndexOf(kept, current);
      ok := true;
    }

    /** It runs without an await, so it is one step of the protocol. */
    method LearnHosts(entries: seq<Entry>, replace: bool) returns (ok: bool)
      requires Idle()
      modifies this`hosts, this`index, this`world, this`run
      ensures Idle() && Continues(old(run), run)
      ensures world == Perform(cfg, old(world), Action.LearnHosts(entries, replace))
      ensures ok == InRange(old(Fields()))
    {
      ok := Merge(entries, replace);
      Take(Action.LearnHosts(entries, replace));
    }

    // ---- awaits ------------------------------------------------------------------------------------

    /** One step is taken by somebody; it goes on record. */
    method Take(a: Action)
      requires Recorded() && Enabled(cfg, world, a)
      modifies this`world, this`run
      ensures Recorded() && Continues(old(run), run) && world == Perform(cfg, old(world), a)
      ensures a in run.acts
    {
      ExtendIsRun(cfg, run, a);
      run := Extend(cfg, run, a);
      world := Perform(cfg, world, a);
    }

    /** The others run, in any order and for as long as they like, and write the fields. */
    method RunOthers(t: TaskId, others: seq<Action>)
      requires Idle() && t in world.tasks
      modifies this`hosts, this`index, this`baseUrl, this`world, this`run, auth
      ensures Idle() && Continues(old(run), run)
      ensures t in world.tasks && world.tasks[t] == old(world.tasks[t])
    {
      for i := 0 to |others|
        invariant Recorded() && Continues(old(run), run)
        invariant t in world.tasks && world.tasks[t] == old(world.tasks[t])
      {
        if Enabled(cfg, world, others[i]) && !ActsAs(others[i], t) {
          Take(others[i]);
        }
      }
      hosts, index, baseUrl := world.sh.hosts, world.sh.index, world.sh.baseUrl;
      auth.baseUrl, auth.ticket, auth.csrf, auth.birth := world.sh.authUrl, world.sh.ticket, world.sh.csrf, world.sh.birth;
    }

    /** `t` sends a call and is suspended until it hears about it. */
    method Await(t: TaskId, url: Url, call: Call) returns (reply: Reply)
      requires Idle() && t in world.tasks && !world.tasks[t].pc.WantSwitch?
      requires world.tasks[t].flight == Some(Flight(url, call))
      modifies this, auth
      ensures Continues(old(run), run)
      ensures Running(t, Resume(cfg, Fields(), old(world.tasks[t].pc), reply, at.now))
      ensures Fits(call, reply)
    {
      var turn := fate(cursor);
      cursor := cursor + 1;
      RunOthers(t, turn.others);
      reply := if Fits(call, turn.reply) then turn.reply else Aborted;
      at := Noted(world, t, reply);
      Take(Deliver(t, reply));
    }

    /** `t` is suspended until the lock is free; it may be cancelled first. */
    method AwaitLock(t: TaskId) returns (acquired: bool)
      requires Idle() && t in world.tasks && world.tasks[t].pc.WantSwitch? && world.tasks[t].flight.None?
      modifies this, auth
      ensures Continues(old(run), run)
      ensures var cause := old(world.tasks[t].pc.cause);
        Running(t, if acquired then EnterFailover(cfg, Fields(), cause, at.now)
                   else AfterFailover(cfg, Fields(), cause, Threw(OtherFault), at.now))
    {
      var turn := fate(cursor);
      cursor := cursor + 1;
      RunOthers(t, turn.others);
      acquired := world.lock.None? && turn.reply != Aborted;
      if acquired {
        at := world;
        Take(Acquire(t));
      } else {
        at := Noted(world, t, Aborted);
        Take(Deliver(t, Aborted));
      }
    }

    // ---- failover ------------------------------------------------------------------------------------

    /** The credentials `_request_once` puts into the headers. */
    function Headers(): (creds: Creds)
      reads this, auth
    {
      if cfg.auth.ApiToken? then Token else Pair(auth.ticket, auth.csrf)
    }

    /** `_answers`: any HTTP answer counts, a connection that fails does not, and everything else
        goes through. */
    method Answers(t: TaskId) returns (heard: Heard)
      requires Idle() && t in world.tasks && Holds(world.tasks[t].pc)
      requires world.tasks[t].flight == Some(Flight(baseUrl, Probe(Headers())))
      modifies this, auth
      ensures Continues(old(run), run)
      ensures match old(world.tasks[t].pc)
              case Asking(start, cause) => Running(t, OnAsked(cfg, Fields(), start, cause, heard, at.now))
              case Walking(start, offset, limit, cause) =>
                Running(t, OnWalked(cfg, Fields(), start, offset, limit, cause, heard, at.now))
              case _ => true
    {
      var reply := Await(t, baseUrl, Probe(Headers()));
      match reply {
        case Answered(status) =>
          if status != 200 && status != 201 && index >= |hosts| {
            return Mute(IndexFault);
          }
          return Yes;
        case Unreachable => return if index < |hosts| then No else Mute(IndexFault);
        case Broken => return if index < |hosts| then No else Mute(IndexFault);
        case _ => return Mute(OtherFault);
      }
    }

    /** `failover`, called for `cause`: the verdict, and the exception it may end with instead. */
    method Failover(t: TaskId, cause: Cause) returns (verdict: Verdict)
      requires Idle() && t in world.tasks
      requires world.tasks[t].pc == WantSwitch(cause) && world.tasks[t].flight.None?
      modifies this, auth
      ensures Continues(old(run), run)
      ensures Running(t, AfterFailover(cfg, Fields(), cause, verdict, at.now))
    {
      var acquired := AwaitLock(t);
      if !acquired {
        return Threw(OtherFault);
      }
      var start := index;
      if FromHost(cause).Some? {
        if index >= |hosts| {
          return Threw(IndexFault);
        }
        if FromHost(cause).value != hosts[index] {
          return Moved(true);
        }
      }
      if VerifyCurrent(cause) {
        var heard := Answers(t);
        match heard {
          case Mute(fault) => return Threw(fault);
          case Yes => return if index < |hosts| then Moved(false) else Threw(IndexFault);
          case No =>
        }
      }
      verdict := Walk(t, start, cause);
    }

    /** One candidate of the walk: None is the `continue` after a silent one. */
    method TryCandidate(t: TaskId, start: nat, offset: nat, ghost limit: nat, ghost cause: Cause)
      returns (verdict: Option<Verdict>)
      requires offset < limit && Running(t, WalkOn(cfg, Fields(), start, offset, limit, cause, at.now))
      modifies this, auth
      ensures Continues(old(run), run)
      ensures Running(t, if verdict.Some? then AfterFailover(cfg, Fields(), cause, verdict.value, at.now)
                         else WalkOn(cfg, Fields(), start, offset + 1, limit, cause, at.now))
    {
      var ok := UseHost((start + offset) % |hosts|);
      var heard := Answers(t);
      match heard {
        case Mute(fault) => return Some(Threw(fault));
        case Yes => return Some(if start < |hosts| && index < |hosts| then Moved(true) else Threw(IndexFault));
        case No => return None;
      }
    }

    /** The walk of `failover` from the host at `start`, over the hosts known when it begins. */
    method Walk(t: TaskId, start: nat, ghost cause: Cause) returns (verdict: Verdict)
      requires Running(t, WalkOn(cfg, Fields(), start, 1, |hosts|, cause, at.now))
      modifies this, auth
      ensures Continues(old(run), run)
      ensures Running(t, AfterFailover(cfg, Fields(), cause, verdict, at.now))
    {
      var limit := |hosts|;
      for offset := 1 to limit
        invariant Running(t, WalkOn(cfg, Fields(), start, offset, limit, cause, at.now))
        invariant Continues(old(run), run)
      {
        var found := TryCandidate(t, start, offset, limit, cause);
        if found.Some? {
          return found.value;
        }
      }
      var ok := UseHost(start);
      return if ok then Moved(false) else Threw(IndexFault);
    }

    // ---- tickets -------------------------------------------------------------------------------------

    /** `_get_new_tokens`: with a password, or with the ticket in its place. */
    method GetNewTokens(t: TaskId, ghost why: LoginFor, password: Option<string>) returns (fault: Option<Fault>)
      requires cfg.auth.Password?
      requires password == if why.Renewal? then None else Some(cfg.auth.secret)
      requires Running(t, StartLogin(cfg, Fields(), why))
      modifies this, auth
      ensures Continues(old(run), run)
      ensures Running(t, AfterLogin(cfg, Fields(), why, fault))
    {
      var target := if password.None? || password.value == "" then auth.ticket else password.value;
      var reply := Await(t, auth.baseUrl, Login(target));
      var stored := Store(reply);
      if !stored {
        return Some(FaultOf(reply));
      }
      fault := ReadRest(t, why, reply.rest);
    }

    /** `_get_new_tokens` once the two tokens of the first answer are stored. */
    method ReadRest(t: TaskId, ghost why: LoginFor, rest: Rest) returns (fault: Option<Fault>)
      requires Running(t, match rest
                          case BadCapabilities => AfterLogin(cfg, Fields(), why, Some(OtherFault))
                          case NeedsTfa => Send(Fields(), LoggingIn(why, true), auth.baseUrl, Challenge(auth.ticket))
                          case Complete => AfterLogin(cfg, Fields(), why, None))
      modifies this, auth
      ensures Continues(old(run), run)
      ensures Running(t, AfterLogin(cfg, Fields(), why, fault))
    {
      if rest == BadCapabilities {
        return Some(OtherFault);
      }
      if rest == NeedsTfa {
        fault := AnswerChallenge(t, why);
      } else {
        fault := None;
      }
    }

    /** The second step of a login: the ticket just received is the challenge. */
    method AnswerChallenge(t: TaskId, ghost why: LoginFor) returns (fault: Option<Fault>)
      requires Running(t, Send(Fields(), LoggingIn(why, true), auth.baseUrl, Challenge(auth.ticket)))
      modifies this, auth
      ensures Continues(old(run), run)
      ensures Running(t, AfterLogin(cfg, Fields(), why, fault))
    {
      var reply := Await(t, auth.baseUrl, Challenge(auth.ticket));
      var stored := Store(reply);
      return if stored then None else Some(FaultOf(reply));
    }

    /** The writes of one answer; False when the answer, or a key missing from it, raises. */
    method Store(reply: Reply) returns (stored: bool)
      modifies auth`birth, auth`ticket, auth`csrf
      ensures Fields() == StoreTokens(old(Fields()), reply, world.now)
      ensures stored <==> reply.Granted? && reply.ticket.Some? && reply.csrf.Some?
    {
      if !reply.Granted? {
        return false;
      }
      auth.birth := world.now;
      if reply.ticket.None? {
        return false;
      }
      auth.ticket := reply.ticket.value;
      if reply.csrf.None? {
        return false;
      }
      auth.csrf := reply.csrf.value;
      stored := true;
    }

    static function FaultOf(reply: Reply): Fault {
      match reply
      case Refused => AuthFault
      case Unreachable => Connection
      case Broken => ClientFault
      case _ => OtherFault
    }

    /** `relogin`: the stored password, whoever asks. */
    method Relogin(t: TaskId, ghost why: LoginFor) returns (fault: Option<Fault>)
      requires cfg.auth.Password? && !why.Renewal?
      requires Running(t, StartLogin(cfg, Fields(), why))
      modifies this, auth
      ensures Continues(old(run), run)
      ensures Running(t, AfterLogin(cfg, Fields(), why, fault))
    {
      fault := GetNewTokens(t, why, Some(auth.auth.secret));
    }

    /** `check_and_refresh`: a stale ticket renews itself, or the password has to do. */
    method CheckAndRefresh(t: TaskId, ghost round: Round) returns (fault: Option<Fault>, ghost read: real)
      requires Running(t, BeginCheck(cfg, Fields(), round, at.now))
      modifies this, auth
      ensures Continues(old(run), run)
      ensures Running(t, AfterCheck(cfg, Fields(), round, read, fault))
    {
      read := world.now;
      fault := None;
      if auth.auth.Password? && world.now - auth.birth >= RENEW_AGE {
        fault := GetNewTokens(t, Renewal(round, read), None);
        if fault == Some(AuthFault) {
          fault := Relogin(t, Fallback(round, read));
        }
      }
    }

    // ---- request -------------------------------------------------------------------------------------

    /** `_request_once`, the second time. */
    method RequestAgain(t: TaskId) returns (outcome: Outcome)
      requires Running(t, SendAgain(cfg, Fields()))
      modifies this, auth
      ensures Continues(old(run), run)
      ensures Running(t, Finish(Fields(), outcome))
    {
      var reply := Await(t, baseUrl, Data(None, Headers()));
      var fault := AttemptFault(reply);
      return if fault.None? then Success else Raised(fault.value);
    }

    /** `request` up to its first attempt. */
    method Prepare(t: TaskId) returns (fault: Option<Fault>, ghost read: real)
      requires Running(t, BeginCheck(cfg, Fields(), First, at.now))
      modifies this, auth
      ensures Continues(old(run), run)
      ensures Running(t, AfterCheck(cfg, Fields(), Second, read, fault))
    {
      fault, read := CheckAndRefresh(t, First);
      if fault == Some(Connection) && |hosts| >= 2 {
        var verdict := Failover(t, RenewalFailed);
        match verdict {
          case Threw(thrown) => fault := Some(thrown);
          case Moved(moved) =>
            if moved {
              fault, read := CheckAndRefresh(t, Second);
            }
        }
      }
    }

    /** The body of `request`. */
    method Proceed(t: TaskId) returns (outcome: Outcome)
      requires Running(t, BeginCheck(cfg, Fields(), First, at.now))
      modifies this, auth
      ensures Continues(old(run), run)
      ensures Running(t, Finish(Fields(), outcome))
    {
      var fault, read := Prepare(t);
      if fault.Some? {
        return Raised(fault.value);
      }
      if index >= |hosts| {
        return Raised(IndexFault);
      }
      outcome := Attempt(t, read);
    }

    /** `request`: whatever the network does and whoever else runs, the code is one task of the
        protocol from its first step to its last, and it ends the way that task ends. */
    method Request(t: TaskId) returns (outcome: Outcome)
      requires Idle() && t !in world.tasks
      modifies this, auth
      ensures Idle() && Continues(old(run), run)
      ensures t in world.tasks && world.tasks[t].pc == Done(outcome)
      ensures Begin(t) in run.acts
    {
      at := world;
      Take(Begin(t));
      ghost var begun := run;
      outcome := Proceed(t);
      StaysOnRecord(begun, run, Begin(t));
    }

    /** The two attempts of `request`. */
    method Attempt(t: TaskId, ghost read: real) returns (outcome: Outcome)
      requires index < |hosts|
      requires Running(t, AfterCheck(cfg, Fields(), Second, read, None))
      modifies this, auth
      ensures Continues(old(run), run)
      ensures Running(t, Finish(Fields(), outcome))
    {
      var hostBefore := hosts[index];
      var reply := Await(t, baseUrl, Data(Some(hostBefore), Headers()));
      var fault := AttemptFault(reply);
      if fault.None? {
        return Success;
      }
      if fault == Some(ApiFault(401)) && auth.auth.Password? {
        fault := Relogin(t, Refused401);
        if fault.Some? {
          return Raised(fault.value);
        }
        outcome := RequestAgain(t);
      } else if fault == Some(Connection) && |hosts| >= 2 {
        var verdict := Failover(t, RequestFailed(hostBefore));
        match verdict {
          case Threw(thrown) => return Raised(thrown);
          case Moved(moved) =>
            if !moved {
              return Raised(Connection);
            }
        }
        outcome := RequestAgain(t);
      } else {
        return Raised(fault.value);
      }
    }

    /** `failover` called by a consumer, with arguments of its own. */
    method ConsumerFailover(t: TaskId, from: Option<Host>, verify: bool) returns (outcome: Outcome)
      requires Idle() && t !in world.tasks
      modifies this, auth
      ensures Idle() && Continues(old(run), run)
      ensures t in world.tasks && world.tasks[t].pc == Done(outcome)
    {
      at := world;
      Take(CallFailover(t, from, verify));
      var verdict := Failover(t, Consumer(from, verify));
      match verdict {
        case Moved(moved) => return Switched(moved);
        case Threw(fault) => return Raised(fault);
      }
    }

    // ---- what the protocol says about this code ---------------------------------------------------------

    /** While lists are only replaced outside `failover`, the fields agree on the host in use. */
    lemma FieldsAgree()
      requires Idle() && IsCalm(run)
      ensures HostSafety.HostsOk(cfg, Fields())
    {
      HostSafety.ReachableSafe(cfg, run, |run.acts|);
    }

    /** What the code does about each reply to an attempt or to a login. */
    lemma RepliesAreHeeded(i: nat, t: TaskId, call: Call, reply: Reply)
      requires Idle() && Recovery.Hears(cfg, run, i, t, call, reply)
      ensures Recovery.Heeds(cfg, run.states[i], t, call, reply, run.states[i + 1])
    {
      Recovery.EveryReplyIsHeeded(cfg, run, i, t, call, reply);
    }

    /** What the call to `Request` that began at step `k` has cost: at most two data requests and ten
        ticket posts, eight if less than `renew_age` has passed since, and 2n - 1 probes when no more than `n`
        hosts were ever known, none when there was only one. */
    lemma CallIsCheap(t: TaskId, k: nat, brisk: bool, n: nat)
      requires Idle() && k < |run.acts| && run.acts[k] == Begin(t)
      requires forall j :: 0 <= j < |run.states| ==> |run.states[j].sh.hosts| <= n
      requires brisk ==> world.now - run.states[k].now < RENEW_AGE
      ensures Budget.Count(world.log, t, Budget.Requests) <= 2
      ensures Budget.Count(world.log, t, Budget.Probes) <= Budget.TwoWalks(n)
      ensures Budget.Count(world.log, t, Budget.Posts) <= (if brisk then 8 else 10)
    {
      OneStart(cfg, run, t);
      Budget.CallCosts(cfg, run, t, k, brisk, n);
    }
  }

  lemma {:induction false} TasksStay(cfg: Config, r: Run, t: TaskId, i: nat, j: nat)
    requires IsRun(cfg, r) && i <= j < |r.states| && t in r.states[i].tasks
    ensures t in r.states[j].tasks
    decreases j
  {
    if i == j {
    } else {
      var a := r.acts[j - 1];
      TasksStay(cfg, r, t, i, j - 1);
    }
  }

  /** A task is started once, and in one way. */
  lemma OneStart(cfg: Config, r: Run, t: TaskId)
    requires IsRun(cfg, r) && Begin(t) in r.acts
    ensures forall j :: 0 <= j < |r.acts| ==> r.acts[j] != CallLogin(t) && !(r.acts[j].CallFailover? && r.acts[j].task == t)
  {
    var k :| 0 <= k < |r.acts| && r.acts[k] == Begin(t);
    forall j | 0 <= j < |r.acts|
      ensures r.acts[j] != CallLogin(t) && !(r.acts[j].CallFailover? && r.acts[j].task == t)
    {
      if r.acts[j] == CallLogin(t) || (r.acts[j].CallFailover? && r.acts[j].task == t) {
        if j < k {
          TasksStay(cfg, r, t, j + 1, k);
        } else {
          TasksStay(cfg, r, t, k + 1, j);
        }
      }
    }
  }
}
