/** What a call does about each reply: when it moves, when it logs in again and with what, when it
    repeats the request, and when it gives up. */
module Recovery {
  import opened Wrappers
  import opened Protocol
  import Walks

  // ---- what a task does next ----------------------------------------------------------------------------

  predicate Ends(st: State, t: TaskId, outcome: Outcome) {
    t in st.tasks && st.tasks[t].pc == Done(outcome) && st.tasks[t].flight.None?
  }

  /** It waits for the lock, to switch hosts. */
  predicate Queues(st: State, t: TaskId, cause: Cause) {
    t in st.tasks && st.tasks[t].pc == WantSwitch(cause) && st.tasks[t].flight.None?
  }

  predicate Awaits(st: State, t: TaskId, url: Url, call: Call) {
    && t in st.tasks && st.tasks[t].flight == Some(Flight(url, call))
    && st.log != [] && st.log[|st.log| - 1] == Sent(t, url, call)
  }

  /** It logs in. */
  predicate Posts(st: State, t: TaskId, why: LoginFor, password: string) {
    Awaits(st, t, st.sh.authUrl, Login(password)) && st.tasks[t].pc == LoggingIn(why, false)
  }

  /** It sends the request it was called for, with what is in store. */
  predicate Requests(cfg: Config, st: State, t: TaskId, before: Option<Host>) {
    Awaits(st, t, st.sh.baseUrl, Data(before, if cfg.auth.ApiToken? then Token else Pair(st.sh.ticket, st.sh.csrf)))
  }

  /** The first attempt, on the host in use; without one, reading the list raises. */
  predicate RequestsHere(cfg: Config, st: State, t: TaskId) {
    if InRange(st.sh) then Requests(cfg, st, t, Some(Current(st.sh))) else Ends(st, t, Raised(IndexFault))
  }

  /** What a login with the password sends: an empty password is replaced by the ticket. */
  function Secret(cfg: Config, sh: Shared): string {
    if cfg.auth.Password? && cfg.auth.secret != "" then cfg.auth.secret else sh.ticket
  }

  predicate IsDue(cfg: Config, sh: Shared, now: real) {
    cfg.auth.Password? && now - sh.birth >= 3600.0
  }

  /** A call, or what is left of it after a move, begins with a renewal if one is due. */
  predicate Checks(cfg: Config, st: State, t: TaskId, round: Round) {
    if IsDue(cfg, st.sh, st.now) then Posts(st, t, Renewal(round, st.now), st.sh.ticket) else RequestsHere(cfg, st, t)
  }

  // ---- what each reply leads to ---------------------------------------------------------------------------

  /** The reply to a first attempt on `h`. */
  predicate HeedsFirst(cfg: Config, st: State, h: Host, reply: Reply, after: State, t: TaskId) {
    match reply
    case Unreachable =>
      if |st.sh.hosts| >= 2 then Queues(after, t, RequestFailed(h)) else Ends(after, t, Raised(Connection))
    case Answered(status) =>
      if status == 200 || status == 201 then Ends(after, t, Success)
      else if status == 401 && cfg.auth.Password? then Posts(after, t, Refused401, Secret(cfg, st.sh))
      else Ends(after, t, Raised(ApiFault(status)))
    case Broken => Ends(after, t, Raised(ClientFault))
    case _ => Ends(after, t, Raised(OtherFault))
  }

  /** The reply to a repeated request: it is repeated once. */
  predicate HeedsRepeat(reply: Reply, after: State, t: TaskId) {
    match reply
    case Unreachable => Ends(after, t, Raised(Connection))
    case Answered(status) =>
      if status == 200 || status == 201 then Ends(after, t, Success) else Ends(after, t, Raised(ApiFault(status)))
    case Broken => Ends(after, t, Raised(ClientFault))
    case _ => Ends(after, t, Raised(OtherFault))
  }

  /** A login that succeeded: the call goes on with what it logged in for. */
  predicate GoesOn(cfg: Config, after: State, t: TaskId, why: LoginFor) {
    match why
    case Renewal(_, _) => RequestsHere(cfg, after, t)
    case Fallback(_, _) => RequestsHere(cfg, after, t)
    case Refused401 => Requests(cfg, after, t, None)
    case Direct => Ends(after, t, Success)
  }

  /** The reply to the post of a login, or to its TFA step. */
  predicate HeedsLogin(cfg: Config, st: State, why: LoginFor, tfa: bool, reply: Reply, after: State, t: TaskId) {
    match reply
    case Granted(Some(ticket), Some(csrf), rest) =>
      if tfa || rest == Complete then GoesOn(cfg, after, t, why)
      else if rest == NeedsTfa then
        Awaits(after, t, after.sh.authUrl, Challenge(ticket)) && after.tasks[t].pc == LoggingIn(why, true)
      else Ends(after, t, Raised(OtherFault))
    case Refused =>
      if why.Renewal? then Posts(after, t, Fallback(why.round, why.read), Secret(cfg, st.sh))
      else Ends(after, t, Raised(AuthFault))
    case Unreachable =>
      if (why.Renewal? || why.Fallback?) && why.round == First && |st.sh.hosts| >= 2
      then Queues(after, t, RenewalFailed)
      else Ends(after, t, Raised(Connection))
    case Broken => Ends(after, t, Raised(ClientFault))
    case _ => Ends(after, t, Raised(OtherFault))
  }

  /** What the caller of `failover` makes of its verdict. */
  predicate HeedsVerdict(cfg: Config, after: State, t: TaskId, cause: Cause, told: bool) {
    match cause
    case RequestFailed(_) => if told then Requests(cfg, after, t, None) else Ends(after, t, Raised(Connection))
    case RenewalFailed => if told then Checks(cfg, after, t, Second) else Ends(after, t, Raised(Connection))
    case Consumer(_, _) => Ends(after, t, Switched(told))
  }

  // ---- one step -----------------------------------------------------------------------------------------------

  lemma AttemptStep(cfg: Config, st: State, t: TaskId, reply: Reply, h: Option<Host>)
    requires Enabled(cfg, st, Deliver(t, reply)) && Shaped(st.tasks[t].pc, st.tasks[t].flight)
    requires st.tasks[t].flight.Some? && st.tasks[t].flight.value.call.Data? && st.tasks[t].flight.value.call.before == h
    ensures var after := Perform(cfg, st, Deliver(t, reply));
      if h.Some? then HeedsFirst(cfg, st, h.value, reply, after, t) else HeedsRepeat(reply, after, t)
  {
    var flight := st.tasks[t].flight.value;
    assert Noted(st, t, reply).log == st.log + [Got(t, flight.url, flight.call, reply)];
  }

  lemma LoginStep(cfg: Config, st: State, t: TaskId, reply: Reply, why: LoginFor, tfa: bool)
    requires Enabled(cfg, st, Deliver(t, reply)) && Shaped(st.tasks[t].pc, st.tasks[t].flight)
    requires st.tasks[t].pc == LoggingIn(why, tfa)
    ensures HeedsLogin(cfg, st, why, tfa, reply, Perform(cfg, st, Deliver(t, reply)), t)
  {
  }

  lemma BeginStep(cfg: Config, st: State, t: TaskId)
    requires Enabled(cfg, st, Begin(t))
    ensures Checks(cfg, Perform(cfg, st, Begin(t)), t, First)
  {
  }

  lemma EnterStep(cfg: Config, st: State, t: TaskId, cause: Cause)
    requires Enabled(cfg, st, Acquire(t)) && st.tasks[t].pc == WantSwitch(cause)
    ensures var after := Perform(cfg, st, Acquire(t));
      var told := Walks.ToldOf(after.tasks[t].pc, cause);
      told.Some? ==> HeedsVerdict(cfg, after, t, cause, told.value)
  {
  }

  lemma HearStep(cfg: Config, st: State, t: TaskId, reply: Reply, cause: Cause)
    requires Enabled(cfg, st, Deliver(t, reply))
    requires (st.tasks[t].pc.WantSwitch? || Holds(st.tasks[t].pc)) && st.tasks[t].pc.cause == cause
    ensures var after := Perform(cfg, st, Deliver(t, reply));
      var told := Walks.ToldOf(after.tasks[t].pc, cause);
      told.Some? ==> HeedsVerdict(cfg, after, t, cause, told.value)
  {
  }

  /** Told is what `failover` returned; see `Walks` for what that means. */
  lemma VerdictStep(cfg: Config, st: State, a: Action, t: TaskId, cause: Cause)
    requires Enabled(cfg, st, a) && (a == Acquire(t) || (a.Deliver? && a.task == t))
    requires t in st.tasks && (st.tasks[t].pc.WantSwitch? || Holds(st.tasks[t].pc)) && st.tasks[t].pc.cause == cause
    ensures var after := Perform(cfg, st, a);
      var told := Walks.ToldOf(after.tasks[t].pc, cause);
      told.Some? ==> HeedsVerdict(cfg, after, t, cause, told.value)
  {
    if a.Acquire? {
      EnterStep(cfg, st, t, cause);
    } else {
      HearStep(cfg, st, t, a.reply, cause);
    }
  }

  // ---- every run ------------------------------------------------------------------------------------------------

  lemma {:induction false} TasksAreShaped(cfg: Config, r: Run, i: nat, t: TaskId)
    requires IsInitialRun(cfg, r) && i < |r.states|
    ensures t in r.states[i].tasks ==> Shaped(r.states[i].tasks[t].pc, r.states[i].tasks[t].flight)
  {
    if i == 0 {
    } else {
      var st, a := r.states[i - 1], r.acts[i - 1];
      TasksAreShaped(cfg, r, i - 1, t);
      PerformShaped(cfg, st, a, t);
    }
  }

  /** Step `i` hands `reply` to task `t`, which waits for `call`. */
  ghost predicate Hears(cfg: Config, r: Run, i: nat, t: TaskId, call: Call, reply: Reply) {
    && IsInitialRun(cfg, r) && i < |r.acts| && r.acts[i] == Deliver(t, reply)
    && t in r.states[i].tasks && r.states[i].tasks[t].flight.Some? && r.states[i].tasks[t].flight.value.call == call
  }

  /** A first attempt that fails to connect makes the call wait for the lock, to leave the host it was on,
      whenever another is known; a 401 makes it log in again with the password; and every other reply
      ends it as it should. */
  lemma FirstAttemptIsHeeded(cfg: Config, r: Run, i: nat, t: TaskId, h: Host, creds: Creds, reply: Reply)
    requires Hears(cfg, r, i, t, Data(Some(h), creds), reply)
    ensures HeedsFirst(cfg, r.states[i], h, reply, r.states[i + 1], t)
  {
    var st, a := r.states[i], r.acts[i];
    TasksAreShaped(cfg, r, i, t);
    AttemptStep(cfg, st, t, reply, Some(h));
  }

  /** A request is repeated once; what the repeat is answered is the end of it. */
  lemma RepeatIsHeeded(cfg: Config, r: Run, i: nat, t: TaskId, creds: Creds, reply: Reply)
    requires Hears(cfg, r, i, t, Data(None, creds), reply)
    ensures HeedsRepeat(reply, r.states[i + 1], t)
  {
    var st, a := r.states[i], r.acts[i];
    TasksAreShaped(cfg, r, i, t);
    AttemptStep(cfg, st, t, reply, None);
  }

  /** A refused renewal is followed by the password, a renewal that fails to connect by a move; a login
      that succeeds by what it was for, and one that asks for a code by the ticket it came with. */
  lemma LoginIsHeeded(cfg: Config, r: Run, i: nat, t: TaskId, call: Call, reply: Reply)
    requires Hears(cfg, r, i, t, call, reply) && (call.Login? || call.Challenge?)
    ensures r.states[i].tasks[t].pc.LoggingIn?
    ensures var pc := r.states[i].tasks[t].pc;
      pc.tfa == call.Challenge? && HeedsLogin(cfg, r.states[i], pc.why, pc.tfa, reply, r.states[i + 1], t)
  {
    var st, a := r.states[i], r.acts[i];
    TasksAreShaped(cfg, r, i, t);
    LoginStep(cfg, st, t, reply, st.tasks[t].pc.why, st.tasks[t].pc.tfa);
  }

  /** The reply to an attempt, or to a login for whatever reason. */
  predicate Heeds(cfg: Config, st: State, t: TaskId, call: Call, reply: Reply, after: State) {
    match call
    case Data(Some(h), _) => HeedsFirst(cfg, st, h, reply, after, t)
    case Data(None, _) => HeedsRepeat(reply, after, t)
    case Probe(_) => true
    case _ =>
      && t in st.tasks && st.tasks[t].pc.LoggingIn? && st.tasks[t].pc.tfa == call.Challenge?
      && HeedsLogin(cfg, st, st.tasks[t].pc.why, call.Challenge?, reply, after, t)
  }

  lemma EveryReplyIsHeeded(cfg: Config, r: Run, i: nat, t: TaskId, call: Call, reply: Reply)
    requires Hears(cfg, r, i, t, call, reply)
    ensures Heeds(cfg, r.states[i], t, call, reply, r.states[i + 1])
  {
    match call {
      case Data(Some(h), creds) => FirstAttemptIsHeeded(cfg, r, i, t, h, creds, reply);
      case Data(None, creds) => RepeatIsHeeded(cfg, r, i, t, creds, reply);
      case Probe(_) =>
      case _ => LoginIsHeeded(cfg, r, i, t, call, reply);
    }
  }

  /** A call begins with a renewal exactly if one is due, and otherwise with its request. */
  lemma CallBegins(cfg: Config, r: Run, i: nat, t: TaskId)
    requires IsRun(cfg, r) && i < |r.acts| && r.acts[i] == Begin(t)
    ensures Checks(cfg, r.states[i + 1], t, First)
  {
    var st, a := r.states[i], r.acts[i];
    BeginStep(cfg, st, t);
  }

  /** Once `failover` returns True a failed request is repeated and a failed renewal is checked again, with
      a second renewal if one is due; once it returns False both raise their connection error. */
  lemma VerdictIsHeeded(cfg: Config, r: Run, i: nat, t: TaskId, cause: Cause)
    requires IsRun(cfg, r) && i < |r.acts| && (r.acts[i] == Acquire(t) || (r.acts[i].Deliver? && r.acts[i].task == t))
    requires t in r.states[i].tasks
    requires var pc := r.states[i].tasks[t].pc; (pc.WantSwitch? || Holds(pc)) && pc.cause == cause
    ensures t in r.states[i + 1].tasks
    ensures var told := Walks.ToldOf(r.states[i + 1].tasks[t].pc, cause);
      told.Some? ==> HeedsVerdict(cfg, r.states[i + 1], t, cause, told.value)
  {
    var st, a := r.states[i], r.acts[i];
    VerdictStep(cfg, st, a, t, cause);
  }
}
