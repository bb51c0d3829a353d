/** The failover and authentication protocol of one `ProxmoxVE` client that many
    asyncio callers share.

    A caller is a task with a program counter.  One step runs a task from the
    await it is suspended in to the next one, so every write between two awaits
    is atomic.  The awaits of one exchange - sending it, reading the answer and
    leaving its context - are one await here.  What the network says, when it
    says it, and in which order the tasks are resumed are all left open. */
module Protocol {

  import opened Wrappers

  type Host = string
  type TaskId = nat

  /** The list of hosts never runs empty: it starts with the configured host. */
  type Hosts = s: seq<Host> | |s| > 0 witness [""]

  /** `https://{host}:{port}/api2/json` for the client's one port, or the empty string. */
  datatype Url = Unset | Base(host: Host)

  datatype Auth = Password(secret: string) | ApiToken

  datatype Config = Config(configured: Host, auth: Auth)

  /** Seconds after which a ticket is renewed before the next request. */
  const RENEW_AGE: real := 3600.0

  /** The fields of the client and of its authentication object. */
  datatype Shared = Shared(
    hosts: Hosts, index: nat, baseUrl: Url, authUrl: Url,
    ticket: string, csrf: string, birth: real)

  // ---- What goes over the wire -------------------------------------------------

  datatype Creds = Pair(ticket: string, csrf: string) | Token

  /** `Data` is the request a caller asked for; `before` is the `host_before` of its
      first attempt, and is absent when the request is repeated. */
  datatype Call =
    | Data(before: Option<Host>, creds: Creds)
    | Probe(creds: Creds)
    | Login(password: string)
    | Challenge(ticket: string)

  datatype Flight = Flight(url: Url, call: Call)

  /** What else an answer of `access/ticket` says once its two tokens are read. */
  datatype Rest = Complete | NeedsTfa | BadCapabilities

  datatype Reply =
    | Answered(status: int)      // any HTTP answer to `version` or to a request
    | Granted(ticket: Option<string>, csrf: Option<string>, rest: Rest)
    | Refused                    // a status other than 200, or no data to a TFA code
    | Unreachable                // ClientConnectionError or TimeoutError
    | Broken                     // any other aiohttp.ClientError
    | Aborted                    // any other exception, a cancellation included

  predicate Fits(call: Call, reply: Reply) {
    match reply
    case Answered(_) => call.Data? || call.Probe?
    case Granted(_, _, _) => call.Login? || call.Challenge?
    case Refused => call.Login? || call.Challenge?
    case _ => true
  }

  // ---- Where a task can be suspended ---------------------------------------------

  /** `request` calls `check_and_refresh` at most twice: at first, and after a failover. */
  datatype Round = First | Second

  /** Who waits for `_get_new_tokens`; `read` is the time `check_and_refresh` read. */
  datatype LoginFor =
    | Renewal(round: Round, read: real)
    | Fallback(round: Round, read: real)
    | Refused401
    | Direct

  /** Who called `failover`, which fixes its two arguments. */
  datatype Cause =
    | RenewalFailed
    | RequestFailed(before: Host)
    | Consumer(from: Option<Host>, verify: bool)

  function FromHost(cause: Cause): Option<Host> {
    match cause
    case RenewalFailed => None
    case RequestFailed(before) => Some(before)
    case Consumer(from, _) => from
  }

  predicate VerifyCurrent(cause: Cause) {
    match cause
    case RenewalFailed => false
    case RequestFailed(_) => true
    case Consumer(_, verify) => verify
  }

  datatype Fault = AuthFault | ApiFault(status: int) | Connection | ClientFault | IndexFault | OtherFault

  datatype Outcome = Success | Switched(moved: bool) | Raised(fault: Fault)

  datatype Pc =
    | LoggingIn(why: LoginFor, tfa: bool)
    | WantSwitch(cause: Cause)
    | Asking(start: nat, cause: Cause)
    | Walking(start: nat, offset: nat, limit: nat, cause: Cause)
    | Trying(before: Host, read: real)
    | Repeating
    | Done(outcome: Outcome)

  /** The two places where a task is suspended inside `async with self._switch_lock`. */
  predicate Holds(pc: Pc) {
    pc.Asking? || pc.Walking?
  }

  datatype Task = Task(pc: Pc, flight: Option<Flight>, started: real)

  // ---- The list of hosts ----------------------------------------------------------

  predicate InRange(sh: Shared) {
    sh.index < |sh.hosts|
  }

  function Current(sh: Shared): Host
    requires InRange(sh)
  {
    sh.hosts[sh.index]
  }

  /** `_use_host`: the index is written first, so a stale index stays behind the
      IndexError that reading the list with it raises. */
  function UseHost(sh: Shared, index: nat): Shared {
    if index < |sh.hosts| then
      sh.(index := index, baseUrl := Base(sh.hosts[index]), authUrl := Base(sh.hosts[index]))
    else
      sh.(index := index)
  }

  /** An entry of the list handed to `learn_hosts`; whatever is no text is dropped. */
  datatype Entry = Named(host: Host) | NotText

  function Kept(kept: Hosts, entries: seq<Entry>): Hosts
    decreases |entries|
  {
    if entries == [] then kept
    else
      var entry := entries[0];
      if entry.Named? && entry.host != "" && entry.host !in kept
      then Kept(kept + [entry.host], entries[1..])
      else Kept(kept, entries[1..])
  }

  function IndexOf(s: seq<Host>, h: Host): (i: nat)
    requires h in s
    ensures i < |s| && s[i] == h && h !in s[..i]
  {
    if s[0] == h then 0 else 1 + IndexOf(s[1..], h)
  }

  function Learnt(sh: Shared, entries: seq<Entry>, replace: bool): Hosts
    requires InRange(sh)
  {
    var kept := Kept(if replace then [sh.hosts[0]] else sh.hosts, entries);
    if Current(sh) in kept then kept else kept + [Current(sh)]
  }

  /** `learn_hosts`: out of range, reading the host in use raises before anything is written. */
  function Learn(sh: Shared, entries: seq<Entry>, replace: bool): Shared {
    if InRange(sh) then
      var hosts := Learnt(sh, entries, replace);
      sh.(hosts := hosts, index := IndexOf(hosts, Current(sh)))
    else sh
  }

  // ---- One task, from one await to the next -----------------------------------------

  datatype Next = Next(sh: Shared, pc: Pc, flight: Option<Flight>)

  function Finish(sh: Shared, outcome: Outcome): Next {
    Next(sh, Done(outcome), None)
  }

  function Throw(sh: Shared, fault: Fault): Next {
    Finish(sh, Raised(fault))
  }

  function Send(sh: Shared, pc: Pc, url: Url, call: Call): Next {
    Next(sh, pc, Some(Flight(url, call)))
  }

  function CredsOf(cfg: Config, sh: Shared): Creds {
    if cfg.auth.ApiToken? then Token else Pair(sh.ticket, sh.csrf)
  }

  /** The second attempt of a request, after a failover or a login. */
  function SendAgain(cfg: Config, sh: Shared): Next {
    Send(sh, Repeating, sh.baseUrl, Data(None, CredsOf(cfg, sh)))
  }

  /** What `request` does once `check_and_refresh` returned or raised. */
  function AfterCheck(cfg: Config, sh: Shared, round: Round, read: real, fault: Option<Fault>): Next {
    match fault
    case None =>
      if InRange(sh)
      then Send(sh, Trying(Current(sh), read), sh.baseUrl, Data(Some(Current(sh)), CredsOf(cfg, sh)))
      else Throw(sh, IndexFault)
    case Some(f) =>
      if f == Connection && round == First && |sh.hosts| >= 2
      then Next(sh, WantSwitch(RenewalFailed), None)
      else Throw(sh, f)
  }

  /** The first post of `_get_new_tokens`: a renewal, and an empty password, send the ticket. */
  function StartLogin(cfg: Config, sh: Shared, why: LoginFor): Next {
    var secret := if why.Renewal? || cfg.auth.ApiToken? then "" else cfg.auth.secret;
    Send(sh, LoggingIn(why, false), sh.authUrl, Login(if secret == "" then sh.ticket else secret))
  }

  predicate Stale(cfg: Config, sh: Shared, now: real) {
    cfg.auth.Password? && now - sh.birth >= RENEW_AGE
  }

  function BeginCheck(cfg: Config, sh: Shared, round: Round, now: real): Next {
    if Stale(cfg, sh, now) then StartLogin(cfg, sh, Renewal(round, now))
    else AfterCheck(cfg, sh, round, now, None)
  }

  /** The writes of one `access/ticket` answer, in the order the code makes them. */
  function StoreTokens(sh: Shared, reply: Reply, now: real): Shared {
    if !reply.Granted? then sh
    else if reply.ticket.None? then sh.(birth := now)
    else if reply.csrf.None? then sh.(birth := now, ticket := reply.ticket.value)
    else sh.(birth := now, ticket := reply.ticket.value, csrf := reply.csrf.value)
  }

  /** How one `access/ticket` answer leaves `_get_new_tokens`, where it does. */
  function LoginFault(reply: Reply, tfa: bool): Option<Fault> {
    match reply
    case Granted(Some(_), Some(_), rest) =>
      if rest == BadCapabilities && !tfa then Some(OtherFault) else None
    case Refused => Some(AuthFault)
    case Unreachable => Some(Connection)
    case Broken => Some(ClientFault)
    case _ => Some(OtherFault)
  }

  /** What the caller of `_get_new_tokens` does once it returned or raised. */
  function AfterLogin(cfg: Config, sh: Shared, why: LoginFor, fault: Option<Fault>): Next {
    match why
    case Renewal(round, read) =>
      if fault == Some(AuthFault) then StartLogin(cfg, sh, Fallback(round, read))
      else AfterCheck(cfg, sh, round, read, fault)
    case Fallback(round, read) => AfterCheck(cfg, sh, round, read, fault)
    case Refused401 => if fault.None? then SendAgain(cfg, sh) else Throw(sh, fault.value)
    case Direct => if fault.None? then Finish(sh, Success) else Throw(sh, fault.value)
  }

  predicate NeedsCode(reply: Reply, tfa: bool) {
    !tfa && LoginFault(reply, tfa).None? && reply.Granted? && reply.rest == NeedsTfa
  }

  function OnLogin(cfg: Config, sh: Shared, why: LoginFor, tfa: bool, reply: Reply, now: real): Next {
    var stored := StoreTokens(sh, reply, now);
    if NeedsCode(reply, tfa)
    then Send(stored, LoggingIn(why, true), stored.authUrl, Challenge(stored.ticket))
    else AfterLogin(cfg, stored, why, LoginFault(reply, tfa))
  }

  /** How `failover` ends: with a verdict, or with an exception. */
  datatype Verdict = Moved(moved: bool) | Threw(fault: Fault)

  function AfterFailover(cfg: Config, sh: Shared, cause: Cause, verdict: Verdict, now: real): Next {
    match verdict
    case Threw(fault) => Throw(sh, fault)
    case Moved(moved) =>
      match cause
      case RenewalFailed => if moved then BeginCheck(cfg, sh, Second, now) else Throw(sh, Connection)
      case RequestFailed(_) => if moved then SendAgain(cfg, sh) else Throw(sh, Connection)
      case Consumer(_, _) => Finish(sh, Switched(moved))
  }

  /** The walk of `failover`: the bound of the loop is fixed when it starts, the
      modulus is read again for every candidate. */
  function WalkOn(cfg: Config, sh: Shared, start: nat, offset: nat, limit: nat, cause: Cause, now: real): Next {
    if offset < limit then
      var used := UseHost(sh, (start + offset) % |sh.hosts|);
      Send(used, Walking(start, offset, limit, cause), used.baseUrl, Probe(CredsOf(cfg, used)))
    else
      AfterFailover(cfg, UseHost(sh, start), cause,
                    if start < |sh.hosts| then Moved(false) else Threw(IndexFault), now)
  }

  function EnterFailover(cfg: Config, sh: Shared, cause: Cause, now: real): Next {
    if FromHost(cause).Some? && !InRange(sh) then AfterFailover(cfg, sh, cause, Threw(IndexFault), now)
    else if FromHost(cause).Some? && FromHost(cause).value != Current(sh) then
      AfterFailover(cfg, sh, cause, Moved(true), now)
    else if VerifyCurrent(cause) then
      Send(sh, Asking(sh.index, cause), sh.baseUrl, Probe(CredsOf(cfg, sh)))
    else WalkOn(cfg, sh, sh.index, 1, |sh.hosts|, cause, now)
  }

  /** What `_answers` makes of a reply.  A refusal counts as an answer; the messages it
      logs name the host in use, which raises when the index is out of range. */
  datatype Heard = Yes | No | Mute(fault: Fault)

  function Hear(sh: Shared, reply: Reply): Heard {
    match reply
    case Answered(status) =>
      if status == 200 || status == 201 || InRange(sh) then Yes else Mute(IndexFault)
    case Unreachable => if InRange(sh) then No else Mute(IndexFault)
    case Broken => if InRange(sh) then No else Mute(IndexFault)
    case _ => Mute(OtherFault)
  }

  function OnAsked(cfg: Config, sh: Shared, start: nat, cause: Cause, heard: Heard, now: real): Next {
    match heard
    case Yes =>
      AfterFailover(cfg, sh, cause, if InRange(sh) then Moved(false) else Threw(IndexFault), now)
    case No => WalkOn(cfg, sh, start, 1, |sh.hosts|, cause, now)
    case Mute(fault) => AfterFailover(cfg, sh, cause, Threw(fault), now)
  }

  /** The warning of a successful walk names the host it left and the host in use. */
  function OnWalked(cfg: Config, sh: Shared, start: nat, offset: nat, limit: nat, cause: Cause,
                    heard: Heard, now: real): Next {
    match heard
    case Yes =>
      AfterFailover(cfg, sh, cause,
                    if start < |sh.hosts| && InRange(sh) then Moved(true) else Threw(IndexFault), now)
    case No => WalkOn(cfg, sh, start, offset + 1, limit, cause, now)
    case Mute(fault) => AfterFailover(cfg, sh, cause, Threw(fault), now)
  }

  /** What an exception of one attempt is to `request`; None for a normal return. */
  function AttemptFault(reply: Reply): Option<Fault> {
    match reply
    case Answered(status) => if status == 200 || status == 201 then None else Some(ApiFault(status))
    case Unreachable => Some(Connection)
    case Broken => Some(ClientFault)
    case _ => Some(OtherFault)
  }

  function OnFirstAttempt(cfg: Config, sh: Shared, before: Host, fault: Option<Fault>): Next {
    if fault.None? then Finish(sh, Success)
    else if fault == Some(ApiFault(401)) && cfg.auth.Password? then StartLogin(cfg, sh, Refused401)
    else if fault == Some(Connection) && |sh.hosts| >= 2 then Next(sh, WantSwitch(RequestFailed(before)), None)
    else Throw(sh, fault.value)
  }

  function OnSecondAttempt(sh: Shared, fault: Option<Fault>): Next {
    if fault.None? then Finish(sh, Success) else Throw(sh, fault.value)
  }

  /** A suspended task is handed the reply it waits for.  A task waiting for the lock can
      only be cancelled. */
  function Resume(cfg: Config, sh: Shared, pc: Pc, reply: Reply, now: real): Next {
    match pc
    case LoggingIn(why, tfa) => OnLogin(cfg, sh, why, tfa, reply, now)
    case WantSwitch(_) => Throw(sh, OtherFault)
    case Asking(start, cause) => OnAsked(cfg, sh, start, cause, Hear(sh, reply), now)
    case Walking(start, offset, limit, cause) =>
      OnWalked(cfg, sh, start, offset, limit, cause, Hear(sh, reply), now)
    case Trying(before, _) => OnFirstAttempt(cfg, sh, before, AttemptFault(reply))
    case Repeating => OnSecondAttempt(sh, AttemptFault(reply))
    case Done(_) => Next(sh, pc, None)
  }

  // ---- All tasks ---------------------------------------------------------------------

  datatype Event =
    | Sent(task: TaskId, url: Url, call: Call)
    | Got(task: TaskId, url: Url, call: Call, reply: Reply)
    | Cancelled(task: TaskId)    // while it waited for the lock

  datatype State = State(
    sh: Shared, lock: Option<TaskId>, tasks: map<TaskId, Task>, now: real, log: seq<Event>)

  datatype Action =
    | Tick(time: real)
    | Begin(task: TaskId)
    | CallFailover(task: TaskId, from: Option<Host>, verify: bool)
    | CallLogin(task: TaskId)
    | Acquire(task: TaskId)
    | Deliver(task: TaskId, reply: Reply)
    | LearnHosts(entries: seq<Entry>, replace: bool)

  function Init(cfg: Config, now: real): State {
    State(
      Shared([cfg.configured], 0, Base(cfg.configured),
             if cfg.auth.Password? then Base(cfg.configured) else Unset, "", "", 0.0),
      None, map[], now, [])
  }

  predicate Enabled(cfg: Config, st: State, a: Action) {
    match a
    case Tick(time) => time >= st.now
    case Begin(t) => t !in st.tasks
    case CallFailover(t, _, _) => t !in st.tasks
    case CallLogin(t) => t !in st.tasks && cfg.auth.Password?
    case Acquire(t) => t in st.tasks && st.tasks[t].pc.WantSwitch? && st.lock.None?
    case Deliver(t, reply) =>
      && t in st.tasks
      && (if st.tasks[t].pc.WantSwitch? then reply == Aborted
          else st.tasks[t].flight.Some? && Fits(st.tasks[t].flight.value.call, reply))
    case LearnHosts(_, _) => true
  }

  /** Whether an action is a step of task `t`. */
  predicate ActsAs(a: Action, t: TaskId) {
    match a
    case Tick(_) => false
    case LearnHosts(_, _) => false
    case Begin(u) => u == t
    case CallFailover(u, _, _) => u == t
    case CallLogin(u) => u == t
    case Acquire(u) => u == t
    case Deliver(u, _) => u == t
  }

  function Emitted(t: TaskId, flight: Option<Flight>): seq<Event> {
    if flight.Some? then [Sent(t, flight.value.url, flight.value.call)] else []
  }

  /** Task `t` runs up to its next await: its writes are made, the lock follows its
      program counter, and what it sends is sent. */
  function Apply(st: State, t: TaskId, next: Next): State {
    State(
      next.sh,
      if Holds(next.pc) then Some(t) else if st.lock == Some(t) then None else st.lock,
      st.tasks[t := Task(next.pc, next.flight, if t in st.tasks then st.tasks[t].started else st.now)],
      st.now,
      st.log + Emitted(t, next.flight))
  }

  /** What is put on record when a suspended task is resumed. */
  function Note(t: TaskId, flight: Option<Flight>, reply: Reply): Event {
    if flight.None? then Cancelled(t) else Got(t, flight.value.url, flight.value.call, reply)
  }

  /** The reply is on record before the task sees it. */
  function Noted(st: State, t: TaskId, reply: Reply): State
    requires t in st.tasks
  {
    st.(log := st.log + [Note(t, st.tasks[t].flight, reply)])
  }

  function Perform(cfg: Config, st: State, a: Action): State
    requires Enabled(cfg, st, a)
  {
    match a
    case Tick(time) => st.(now := time)
    case Begin(t) => Apply(st, t, BeginCheck(cfg, st.sh, First, st.now))
    case CallFailover(t, from, verify) => Apply(st, t, Next(st.sh, WantSwitch(Consumer(from, verify)), None))
    case CallLogin(t) => Apply(st, t, StartLogin(cfg, st.sh, Direct))
    case Acquire(t) => Apply(st, t, EnterFailover(cfg, st.sh, st.tasks[t].pc.cause, st.now))
    case Deliver(t, reply) =>
      Apply(Noted(st, t, reply), t, Resume(cfg, st.sh, st.tasks[t].pc, reply, st.now))
    case LearnHosts(entries, replace) => st.(sh := Learn(st.sh, entries, replace))
  }

  /** Every suspended task waits for exactly the call its program counter names. */
  predicate Shaped(pc: Pc, flight: Option<Flight>) {
    match pc
    case LoggingIn(_, tfa) => flight.Some? && (if tfa then flight.value.call.Challenge? else flight.value.call.Login?)
    case WantSwitch(_) => flight.None?
    case Asking(_, _) => flight.Some? && flight.value.call.Probe?
    case Walking(_, _, _, _) => flight.Some? && flight.value.call.Probe?
    case Trying(before, _) => flight.Some? && flight.value.call.Data? && flight.value.call.before == Some(before)
    case Repeating => flight.Some? && flight.value.call.Data? && flight.value.call.before == None
    case Done(_) => flight.None?
  }

  lemma ResumeShaped(cfg: Config, sh: Shared, pc: Pc, reply: Reply, now: real)
    ensures var next := Resume(cfg, sh, pc, reply, now); Shaped(next.pc, next.flight)
  {
  }

  lemma PerformShaped(cfg: Config, st: State, a: Action, t: TaskId)
    requires Enabled(cfg, st, a) && (t in st.tasks ==> Shaped(st.tasks[t].pc, st.tasks[t].flight))
    ensures var after := Perform(cfg, st, a);
      t in after.tasks ==> Shaped(after.tasks[t].pc, after.tasks[t].flight)
  {
    if a.Deliver? {
      ResumeShaped(cfg, st.sh, st.tasks[a.task].pc, a.reply, st.now);
    }
  }

  // ---- Runs ------------------------------------------------------------------------------

  /** A finite run: the actions taken, and the states before, between and after them. */
  datatype Run = Run(states: seq<State>, acts: seq<Action>)

  ghost predicate IsRun(cfg: Config, r: Run) {
    && |r.states| == |r.acts| + 1
    && forall i {:trigger r.acts[i]} :: 0 <= i < |r.acts| ==>
         Enabled(cfg, r.states[i], r.acts[i]) && r.states[i + 1] == Perform(cfg, r.states[i], r.acts[i])
  }

  ghost predicate IsInitialRun(cfg: Config, r: Run) {
    IsRun(cfg, r) && r.states[0].now >= 0.0 && r.states[0] == Init(cfg, r.states[0].now)
  }

  /** `replace=True` is only used while nobody is inside `failover`. */
  predicate Calm(st: State, a: Action) {
    a.LearnHosts? && a.replace ==> st.lock.None?
  }

  ghost predicate IsCalm(r: Run)
    requires |r.states| == |r.acts| + 1
  {
    forall i {:trigger r.acts[i]} :: 0 <= i < |r.acts| ==> Calm(r.states[i], r.acts[i])
  }

  function Last(r: Run): State
    requires |r.states| > 0
  {
    r.states[|r.states| - 1]
  }

  function Extend(cfg: Config, r: Run, a: Action): Run
    requires |r.states| > 0 && Enabled(cfg, Last(r), a)
  {
    Run(r.states + [Perform(cfg, Last(r), a)], r.acts + [a])
  }

  lemma ExtendIsRun(cfg: Config, r: Run, a: Action)
    requires IsRun(cfg, r) && Enabled(cfg, Last(r), a)
    ensures IsRun(cfg, Extend(cfg, r, a)) && Extend(cfg, r, a).states[0] == r.states[0]
    ensures Last(Extend(cfg, r, a)) == Perform(cfg, Last(r), a)
  {
    var longer := Extend(cfg, r, a);
    forall i | 0 <= i < |longer.acts|
      ensures Enabled(cfg, longer.states[i], longer.acts[i])
              && longer.states[i + 1] == Perform(cfg, longer.states[i], longer.acts[i])
    {
      if i < |r.acts| {
        assert longer.states[i] == r.states[i] && longer.states[i + 1] == r.states[i + 1] && longer.acts[i] == r.acts[i];
      }
    }
  }
}
