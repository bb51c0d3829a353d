/** How much one call can cost: bounds on what a task sends and on how often it is resumed, that
    hold in any company of other tasks. */
module Budget {
  import opened Wrappers
  import opened Protocol
  import Credentials

  datatype Kind = Requests | Probes | Posts

  predicate IsKind(kind: Kind, call: Call) {
    match kind
    case Requests => call.Data?
    case Probes => call.Probe?
    case Posts => call.Login? || call.Challenge?
  }

  function One(b: bool): nat {
    if b then 1 else 0
  }

  /** How many calls of one kind a task has sent. */
  function Count(log: seq<Event>, t: TaskId, kind: Kind): nat {
    if log == [] then 0
    else
      var e := log[|log| - 1];
      Count(log[..|log| - 1], t, kind) + One(e.Sent? && e.task == t && IsKind(kind, e.call))
  }

  lemma CountPlus(log: seq<Event>, e: Event, t: TaskId, kind: Kind)
    ensures Count(log + [e], t, kind) == Count(log, t, kind) + One(e.Sent? && e.task == t && IsKind(kind, e.call))
  {
    assert (log + [e])[..|log|] == log;
  }

  // ---- what a task may still send --------------------------------------------------------------------

  /** Whether the call is known to take less than `renew_age`; then `renewed` says that some login
      was answered since it began, so that no second renewal is due. */
  datatype Pace = Any | Brisk(renewed: bool)

  function PaceOf(brisk: bool, sh: Shared, started: real): Pace {
    if brisk then Brisk(sh.birth >= started) else Any
  }

  /** Ticket posts left after the one in flight. */
  function PostsLeft(pc: Pc, pace: Pace): nat {
    match pc
    case Done(_) => 0
    case Repeating => 0
    case Trying(_, _) => 2
    case LoggingIn(why, tfa) =>
      (match why
       case Direct => One(!tfa)
       case Refused401 => One(!tfa)
       case Fallback(round, _) =>
         if round == Second then 2 + One(!tfa)
         else (match pace
               case Any => 6 + One(!tfa)
               case Brisk(renewed) => if renewed then 2 + One(!tfa) else 6)
       case Renewal(round, _) =>
         if round == Second then 4 + One(!tfa)
         else (match pace
               case Any => 8 + One(!tfa)
               case Brisk(renewed) => if renewed then 4 + One(!tfa) else 7))
    case _ => if !pc.cause.RenewalFailed? then 0 else if pace == Brisk(true) then 2 else 6
  }

  /** The probes of two failovers in one call, and of one: none if there is nowhere to go. */
  function TwoWalks(n: nat): nat {
    if n >= 2 then 2 * n - 1 else 0
  }

  function OneWalk(n: nat): nat {
    if n >= 2 then n else 0
  }

  /** Probes left, when the list never holds more than `n` hosts. */
  function ProbesLeft(pc: Pc, n: nat): int {
    match pc
    case Done(_) => 0
    case Repeating => 0
    case Trying(_, _) => OneWalk(n)
    case LoggingIn(why, _) =>
      (match why
       case Direct => 0
       case Refused401 => 0
       case Renewal(round, _) => if round == First then TwoWalks(n) else OneWalk(n)
       case Fallback(round, _) => if round == First then TwoWalks(n) else OneWalk(n))
    case WantSwitch(cause) => if cause.RenewalFailed? then TwoWalks(n) else n
    case Asking(_, cause) => n - 1
    case Walking(_, offset, limit, cause) => limit - 1 - offset + (if cause.RenewalFailed? then n else 0)
  }

  function RequestsLeft(pc: Pc): nat {
    match pc
    case Done(_) => 0
    case Repeating => 0
    case Trying(_, _) => 1
    case LoggingIn(why, _) =>
      (match why
       case Direct => 0
       case Refused401 => 1
       case _ => 2)
    case _ => if pc.cause.RenewalFailed? then 2 else if pc.cause.RequestFailed? then 1 else 0
  }

  /** Times a task may still have to wait for the lock. */
  function WaitsLeft(pc: Pc): nat {
    match pc
    case Done(_) => 0
    case Repeating => 0
    case Trying(_, _) => 1
    case LoggingIn(why, _) =>
      (match why
       case Direct => 0
       case Refused401 => 0
       case Renewal(round, _) => if round == First then 2 else 1
       case Fallback(round, _) => if round == First then 2 else 1)
    case WantSwitch(cause) => if cause.RenewalFailed? then 2 else 1
    case _ => if pc.cause.RenewalFailed? then 1 else 0
  }

  /** A walk in progress fits the bound on the number of hosts. */
  predicate Bounded(pc: Pc, n: nat) {
    match pc
    case Walking(_, offset, limit, _) => offset < limit <= n
    case Asking(_, cause) => !cause.RenewalFailed?
    case WantSwitch(cause) => cause.Consumer? || n >= 2
    case _ => true
  }

  /** An atomic step pays for what it sends out of what was left. */
  predicate Pays(before: Pc, pace: Pace, next: Next, paceAfter: Pace, n: nat) {
    var sent := next.flight;
    && Bounded(next.pc, n)
    && One(sent.Some? && IsKind(Posts, sent.value.call)) + PostsLeft(next.pc, paceAfter) <= PostsLeft(before, pace)
    && One(sent.Some? && IsKind(Probes, sent.value.call)) + ProbesLeft(next.pc, n) <= ProbesLeft(before, n)
    && One(sent.Some? && IsKind(Requests, sent.value.call)) + RequestsLeft(next.pc) <= RequestsLeft(before)
    && WaitsLeft(next.pc) <= WaitsLeft(before)
    && (before.WantSwitch? ==> WaitsLeft(next.pc) < WaitsLeft(before))
  }

  /** The pace of a task as one of its own steps sees it. */
  predicate OnTime(brisk: bool, now: real, started: real) {
    started <= now && (brisk ==> now - started < RENEW_AGE)
  }

  lemma FailoverEndPays(cfg: Config, sh: Shared, cause: Cause, verdict: Verdict, now: real,
                        brisk: bool, started: real, n: nat, before: Pc)
    requires OnTime(brisk, now, started) && n >= 1
    requires Holds(before) || before.WantSwitch?
    requires before.cause == cause && Bounded(before, n)
    ensures var next := AfterFailover(cfg, sh, cause, verdict, now);
      Pays(before, PaceOf(brisk, sh, started), next, PaceOf(brisk, next.sh, started), n)
  {
  }

  lemma WalkOnPays(cfg: Config, sh: Shared, start: nat, offset: nat, limit: nat, cause: Cause, now: real,
                   brisk: bool, started: real, n: nat, before: Pc)
    requires OnTime(brisk, now, started) && n >= 1 && limit <= n
    requires match before
             case WantSwitch(_) => offset == 1 && cause == before.cause
             case Asking(_, _) => offset == 1 && cause == before.cause
             case Walking(_, o, l, _) => offset == o + 1 && limit == l && cause == before.cause
             case _ => false
    requires Bounded(before, n)
    ensures var next := WalkOn(cfg, sh, start, offset, limit, cause, now);
      Pays(before, PaceOf(brisk, sh, started), next, PaceOf(brisk, next.sh, started), n)
  {
    if offset >= limit {
      FailoverEndPays(cfg, UseHost(sh, start), cause, if start < |sh.hosts| then Moved(false) else Threw(IndexFault),
                      now, brisk, started, n, before);
    }
  }

  lemma EnterPays(cfg: Config, sh: Shared, cause: Cause, now: real, brisk: bool, started: real, n: nat)
    requires OnTime(brisk, now, started) && |sh.hosts| <= n && Bounded(WantSwitch(cause), n)
    ensures var next := EnterFailover(cfg, sh, cause, now);
      Pays(WantSwitch(cause), PaceOf(brisk, sh, started), next, PaceOf(brisk, next.sh, started), n)
  {
    FailoverEndPays(cfg, sh, cause, Moved(true), now, brisk, started, n, WantSwitch(cause));
    FailoverEndPays(cfg, sh, cause, Threw(IndexFault), now, brisk, started, n, WantSwitch(cause));
    WalkOnPays(cfg, sh, sh.index, 1, |sh.hosts|, cause, now, brisk, started, n, WantSwitch(cause));
  }

  lemma CodePays(cfg: Config, sh: Shared, why: LoginFor, reply: Reply, now: real, brisk: bool, started: real, n: nat)
    requires OnTime(brisk, now, started) && NeedsCode(reply, false)
    ensures var next := OnLogin(cfg, sh, why, false, reply, now);
      Pays(LoggingIn(why, false), PaceOf(brisk, sh, started), next, PaceOf(brisk, next.sh, started), n)
  {
    assert StoreTokens(sh, reply, now).birth == now;
  }

  lemma CallerPays(cfg: Config, sh: Shared, why: LoginFor, tfa: bool, reply: Reply, now: real,
                   brisk: bool, started: real, n: nat)
    requires OnTime(brisk, now, started) && |sh.hosts| <= n
    ensures var next := AfterLogin(cfg, StoreTokens(sh, reply, now), why, LoginFault(reply, tfa));
      Pays(LoggingIn(why, tfa), PaceOf(brisk, sh, started), next, PaceOf(brisk, next.sh, started), n)
  {
  }

  lemma LoginPays(cfg: Config, sh: Shared, why: LoginFor, tfa: bool, reply: Reply, now: real,
                  brisk: bool, started: real, n: nat)
    requires OnTime(brisk, now, started) && |sh.hosts| <= n
    ensures var next := OnLogin(cfg, sh, why, tfa, reply, now);
      Pays(LoggingIn(why, tfa), PaceOf(brisk, sh, started), next, PaceOf(brisk, next.sh, started), n)
  {
    if NeedsCode(reply, tfa) {
      CodePays(cfg, sh, why, reply, now, brisk, started, n);
    } else {
      CallerPays(cfg, sh, why, tfa, reply, now, brisk, started, n);
    }
  }

  lemma HeardPays(cfg: Config, sh: Shared, pc: Pc, reply: Reply, now: real, brisk: bool, started: real, n: nat)
    requires OnTime(brisk, now, started) && |sh.hosts| <= n && Holds(pc) && Bounded(pc, n)
    ensures var next := Resume(cfg, sh, pc, reply, now);
      Pays(pc, PaceOf(brisk, sh, started), next, PaceOf(brisk, next.sh, started), n)
  {
    match Hear(sh, reply) {
      case No =>
        match pc {
          case Asking(start, cause) =>
            WalkOnPays(cfg, sh, start, 1, |sh.hosts|, cause, now, brisk, started, n, pc);
          case Walking(start, offset, limit, cause) =>
            WalkOnPays(cfg, sh, start, offset + 1, limit, cause, now, brisk, started, n, pc);
        }
      case Yes =>
        FailoverEndPays(cfg, sh, pc.cause, Moved(pc.Walking?), now, brisk, started, n, pc);
        FailoverEndPays(cfg, sh, pc.cause, Threw(IndexFault), now, brisk, started, n, pc);
      case Mute(fault) => FailoverEndPays(cfg, sh, pc.cause, Threw(fault), now, brisk, started, n, pc);
    }
  }

  lemma ResumePays(cfg: Config, sh: Shared, pc: Pc, reply: Reply, now: real, brisk: bool, started: real, n: nat)
    requires OnTime(brisk, now, started) && |sh.hosts| <= n && Bounded(pc, n)
    requires pc.WantSwitch? ==> reply == Aborted
    ensures var next := Resume(cfg, sh, pc, reply, now);
      Pays(pc, PaceOf(brisk, sh, started), next, PaceOf(brisk, next.sh, started), n)
  {
    match pc {
      case LoggingIn(why, tfa) => LoginPays(cfg, sh, why, tfa, reply, now, brisk, started, n);
      case Asking(_, _) => HeardPays(cfg, sh, pc, reply, now, brisk, started, n);
      case Walking(_, _, _, _) => HeardPays(cfg, sh, pc, reply, now, brisk, started, n);
      case _ =>
    }
  }

  // ---- a task among others ---------------------------------------------------------------------------

  function Budget(kind: Kind, brisk: bool, n: nat): int {
    match kind
    case Requests => 2
    case Probes => TwoWalks(n)
    case Posts => if brisk then 8 else 10
  }

  function Left(kind: Kind, pc: Pc, pace: Pace, n: nat): int {
    match kind
    case Requests => RequestsLeft(pc)
    case Probes => ProbesLeft(pc, n)
    case Posts => PostsLeft(pc, pace)
  }

  /** Steps a task can still take: one for every call in flight or still to be sent, one for every
      wait for the lock. */
  function StepsLeft(pc: Pc, flight: Option<Flight>, n: nat): int {
    PostsLeft(pc, Any) + ProbesLeft(pc, n) + RequestsLeft(pc) + WaitsLeft(pc) + One(flight.Some?)
  }

  /** The steps of task `t` from the `k`-th action up to the `i`-th. */
  function StepsOf(acts: seq<Action>, k: nat, i: nat, t: TaskId): set<nat>
    requires i <= |acts|
  {
    set m: nat | k <= m < i && ActsAs(acts[m], t)
  }

  function Turns(acts: seq<Action>, k: nat, i: nat, t: TaskId): nat
    requires i <= |acts|
  {
    |StepsOf(acts, k, i, t)|
  }

  /** What task `t` has sent since `from`, with what it may still send, is within the budget. */
  predicate WithinBudget(st: State, t: TaskId, from: State, brisk: bool, n: nat) {
    t in st.tasks ==>
      var task := st.tasks[t];
      && Bounded(task.pc, n)
      && Shaped(task.pc, task.flight)
      && from.now <= task.started <= st.now
      && forall kind ::
           Count(st.log, t, kind) - Count(from.log, t, kind) + Left(kind, task.pc, PaceOf(brisk, st.sh, task.started), n)
           <= Budget(kind, brisk, n)
  }

  predicate Untouched(st: State, t: TaskId, from: State) {
    t !in st.tasks && from.now <= st.now && forall kind :: Count(st.log, t, kind) == Count(from.log, t, kind)
  }

  lemma LoginsOnlySaveTime(pc: Pc)
    ensures PostsLeft(pc, Brisk(true)) <= PostsLeft(pc, Brisk(false))
  {
  }

  lemma BirthGrows(cfg: Config, st: State, a: Action)
    requires Enabled(cfg, st, a) && st.sh.birth <= st.now
    ensures st.sh.birth <= Perform(cfg, st, a).sh.birth <= Perform(cfg, st, a).now
    ensures st.now <= Perform(cfg, st, a).now
  {
    Credentials.BirthStep(cfg, st, a);
  }

  /** What a step adds to the counts of a task is what that task sends. */
  lemma CountStep(cfg: Config, st: State, a: Action, t: TaskId, kind: Kind)
    requires Enabled(cfg, st, a)
    ensures var after := Perform(cfg, st, a);
      Count(after.log, t, kind) == Count(st.log, t, kind) +
        (if ActsAs(a, t) && after.tasks[t].flight.Some? then One(IsKind(kind, after.tasks[t].flight.value.call)) else 0)
  {
    var after := Perform(cfg, st, a);
    match a {
      case Tick(_) =>
      case LearnHosts(_, _) =>
      case Deliver(u, reply) =>
        var noted := Noted(st, u, reply);
        CountPlus(st.log, Note(u, st.tasks[u].flight, reply), t, kind);
        CountEmitted(noted.log, u, after.tasks[u].flight, t, kind);
      case _ =>
        var u := a.task;
        CountEmitted(st.log, u, after.tasks[u].flight, t, kind);
    }
  }

  lemma CountEmitted(log: seq<Event>, u: TaskId, flight: Option<Flight>, t: TaskId, kind: Kind)
    ensures Count(log + Emitted(u, flight), t, kind) == Count(log, t, kind) +
      (if u == t && flight.Some? then One(IsKind(kind, flight.value.call)) else 0)
  {
    if flight.Some? {
      CountPlus(log, Sent(u, flight.value.url, flight.value.call), t, kind);
    } else {
      assert log + Emitted(u, flight) == log;
    }
  }

  /** The steps of the task itself pay for what they send and bring its end closer. */
  lemma OwnStep(cfg: Config, st: State, a: Action, t: TaskId, brisk: bool, n: nat)
    requires Enabled(cfg, st, a) && (a == Acquire(t) || (a.Deliver? && a.task == t))
    requires |st.sh.hosts| <= n && Bounded(st.tasks[t].pc, n) && OnTime(brisk, st.now, st.tasks[t].started)
    requires Shaped(st.tasks[t].pc, st.tasks[t].flight)
    ensures var task, after := st.tasks[t], Perform(cfg, st, a);
      && t in after.tasks && after.tasks[t].started == task.started
      && Pays(task.pc, PaceOf(brisk, st.sh, task.started), Next(after.sh, after.tasks[t].pc, after.tasks[t].flight),
              PaceOf(brisk, after.sh, task.started), n)
      && Shaped(after.tasks[t].pc, after.tasks[t].flight)
      && StepsLeft(after.tasks[t].pc, after.tasks[t].flight, n) < StepsLeft(task.pc, task.flight, n)
  {
    var task := st.tasks[t];
    PerformShaped(cfg, st, a, t);
    if a.Acquire? {
      EnterPays(cfg, st.sh, task.pc.cause, st.now, brisk, task.started, n);
      EnterPays(cfg, st.sh, task.pc.cause, st.now, false, task.started, n);
    } else {
      ResumePays(cfg, st.sh, task.pc, a.reply, st.now, brisk, task.started, n);
      ResumePays(cfg, st.sh, task.pc, a.reply, st.now, false, task.started, n);
    }
  }

  /** The first step of a call. */
  lemma BeginPays(cfg: Config, sh: Shared, now: real, brisk: bool, n: nat)
    requires |sh.hosts| <= n
    ensures var next := BeginCheck(cfg, sh, First, now);
      && Bounded(next.pc, n) && Shaped(next.pc, next.flight)
      && (forall kind ::
            One(next.flight.Some? && IsKind(kind, next.flight.value.call)) + Left(kind, next.pc, PaceOf(brisk, next.sh, now), n)
            <= Budget(kind, brisk, n))
      && StepsLeft(next.pc, next.flight, n) <= 2 * n + 13
  {
  }

  /** The steps of others leave what a task sent and may send alone; a login of theirs can only
      save it one. */
  lemma OthersStep(cfg: Config, st: State, a: Action, t: TaskId, from: State, brisk: bool, n: nat)
    requires Enabled(cfg, st, a) && !ActsAs(a, t) && st.sh.birth <= st.now
    requires WithinBudget(st, t, from, brisk, n) && (t !in st.tasks ==> Untouched(st, t, from))
    ensures var after := Perform(cfg, st, a);
      WithinBudget(after, t, from, brisk, n) && (t !in after.tasks ==> Untouched(after, t, from))
  {
    var after := Perform(cfg, st, a);
    BirthGrows(cfg, st, a);
    forall kind
      ensures Count(after.log, t, kind) == Count(st.log, t, kind)
    {
      CountStep(cfg, st, a, t, kind);
    }
    if t in st.tasks {
      assert after.tasks[t] == st.tasks[t];
      LoginsOnlySaveTime(st.tasks[t].pc);
    }
  }

  /** What a task sent in a step. */
  function Paid(after: State, t: TaskId, kind: Kind): nat
    requires t in after.tasks
  {
    One(after.tasks[t].flight.Some? && IsKind(kind, after.tasks[t].flight.value.call))
  }

  /** A step that pays for what it sends stays within the budget. */
  lemma PaidBudget(st: State, after: State, t: TaskId, from: State, brisk: bool, n: nat)
    requires WithinBudget(st, t, from, brisk, n) && t in st.tasks && t in after.tasks
    requires after.now == st.now && after.tasks[t].started == st.tasks[t].started
    requires Shaped(after.tasks[t].pc, after.tasks[t].flight)
    requires forall kind :: Count(after.log, t, kind) == Count(st.log, t, kind) + Paid(after, t, kind)
    requires var task := st.tasks[t];
      Pays(task.pc, PaceOf(brisk, st.sh, task.started), Next(after.sh, after.tasks[t].pc, after.tasks[t].flight),
           PaceOf(brisk, after.sh, task.started), n)
    ensures WithinBudget(after, t, from, brisk, n)
  {
    var left := PaceOf(brisk, after.sh, after.tasks[t].started);
    forall kind
      ensures Count(after.log, t, kind) - Count(from.log, t, kind) + Left(kind, after.tasks[t].pc, left, n) <= Budget(kind, brisk, n)
    {
      assert Left(kind, after.tasks[t].pc, left, n) + Paid(after, t, kind)
             <= Left(kind, st.tasks[t].pc, PaceOf(brisk, st.sh, st.tasks[t].started), n);
    }
  }

  lemma OwnBudget(cfg: Config, st: State, a: Action, t: TaskId, from: State, brisk: bool, n: nat)
    requires Enabled(cfg, st, a) && (a == Acquire(t) || (a.Deliver? && a.task == t))
    requires |st.sh.hosts| <= n
    requires brisk ==> st.now - from.now < RENEW_AGE
    requires WithinBudget(st, t, from, brisk, n)
    ensures WithinBudget(Perform(cfg, st, a), t, from, brisk, n)
  {
    var after := Perform(cfg, st, a);
    OwnStep(cfg, st, a, t, brisk, n);
    forall kind
      ensures Count(after.log, t, kind) == Count(st.log, t, kind) + Paid(after, t, kind)
    {
      CountStep(cfg, st, a, t, kind);
    }
    PaidBudget(st, after, t, from, brisk, n);
  }

  lemma BeginBudget(cfg: Config, st: State, t: TaskId, from: State, brisk: bool, n: nat)
    requires Enabled(cfg, st, Begin(t)) && |st.sh.hosts| <= n && Untouched(st, t, from)
    ensures WithinBudget(Perform(cfg, st, Begin(t)), t, from, brisk, n)
  {
    var after := Perform(cfg, st, Begin(t));
    BeginPays(cfg, st.sh, st.now, brisk, n);
    forall kind
      ensures Count(after.log, t, kind) - Count(from.log, t, kind)
              + Left(kind, after.tasks[t].pc, PaceOf(brisk, after.sh, after.tasks[t].started), n) <= Budget(kind, brisk, n)
    {
      CountStep(cfg, st, Begin(t), t, kind);
    }
  }

  lemma BudgetStep(cfg: Config, st: State, a: Action, t: TaskId, from: State, brisk: bool, n: nat)
    requires Enabled(cfg, st, a) && a != CallLogin(t) && !(a.CallFailover? && a.task == t)
    requires |st.sh.hosts| <= n && st.sh.birth <= st.now
    requires brisk ==> st.now - from.now < RENEW_AGE
    requires WithinBudget(st, t, from, brisk, n) && (t !in st.tasks ==> Untouched(st, t, from))
    ensures var after := Perform(cfg, st, a);
      WithinBudget(after, t, from, brisk, n) && (t !in after.tasks ==> Untouched(after, t, from))
  {
    if !ActsAs(a, t) {
      OthersStep(cfg, st, a, t, from, brisk, n);
    } else if a.Begin? {
      BeginBudget(cfg, st, t, from, brisk, n);
    } else {
      OwnBudget(cfg, st, a, t, from, brisk, n);
    }
  }

  /** One `request` among any others, with at most `n` hosts known: it sends at most two data requests,
      2n - 1 probes (none if there is one host) and ten ticket posts, eight if less than `renew_age` passes meanwhile. */
  lemma {:induction false} RequestBudget(cfg: Config, r: Run, t: TaskId, i: nat, brisk: bool, n: nat)
    requires IsRun(cfg, r) && i < |r.states|
    requires t !in r.states[0].tasks && r.states[0].sh.birth <= r.states[0].now
    requires forall j :: 0 <= j < |r.acts| ==> r.acts[j] != CallLogin(t) && !(r.acts[j].CallFailover? && r.acts[j].task == t)
    requires forall j :: 0 <= j < |r.states| ==> |r.states[j].sh.hosts| <= n
    requires brisk ==> Last(r).now - r.states[0].now < RENEW_AGE
    ensures WithinBudget(r.states[i], t, r.states[0], brisk, n)
    ensures t !in r.states[i].tasks ==> Untouched(r.states[i], t, r.states[0])
  {
    if i == 0 {
    } else {
      RequestBudget(cfg, r, t, i - 1, brisk, n);
      Credentials.BirthNeverDecreases(cfg, r, 0, i - 1);
      Credentials.BirthNeverDecreases(cfg, r, i - 1, |r.states| - 1);
      BudgetStep(cfg, r.states[i - 1], r.acts[i - 1], t, r.states[0], brisk, n);
    }
  }

  /** The counts themselves. */
  lemma RequestCosts(cfg: Config, r: Run, t: TaskId, brisk: bool, n: nat)
    requires IsRun(cfg, r)
    requires t !in r.states[0].tasks && r.states[0].sh.birth <= r.states[0].now
    requires forall j :: 0 <= j < |r.acts| ==> r.acts[j] != CallLogin(t) && !(r.acts[j].CallFailover? && r.acts[j].task == t)
    requires forall j :: 0 <= j < |r.states| ==> |r.states[j].sh.hosts| <= n
    requires brisk ==> Last(r).now - r.states[0].now < RENEW_AGE
    ensures Count(Last(r).log, t, Requests) - Count(r.states[0].log, t, Requests) <= 2
    ensures Count(Last(r).log, t, Probes) - Count(r.states[0].log, t, Probes) <= TwoWalks(n)
    ensures Count(Last(r).log, t, Posts) - Count(r.states[0].log, t, Posts) <= (if brisk then 8 else 10)
  {
    RequestBudget(cfg, r, t, |r.acts|, brisk, n);
    ProbesNotNegative(Last(r), t, n);
  }

  /** A run from one of its states on. */
  function From(r: Run, k: nat): Run
    requires k <= |r.acts| && |r.states| == |r.acts| + 1
  {
    Run(r.states[k..], r.acts[k..])
  }

  lemma FromIsRun(cfg: Config, r: Run, k: nat)
    requires IsRun(cfg, r) && k <= |r.acts|
    ensures IsRun(cfg, From(r, k)) && From(r, k).states[0] == r.states[k] && Last(From(r, k)) == Last(r)
  {
    var rest := From(r, k);
    forall i {:trigger rest.acts[i]} | 0 <= i < |rest.acts|
      ensures Enabled(cfg, rest.states[i], rest.acts[i]) && rest.states[i + 1] == Perform(cfg, rest.states[i], rest.acts[i])
    {
      assert rest.acts[i] == r.acts[k + i];
    }
  }

  /** The same for a call that began at step `k`, over all that it sent; its own time counts for the
      bound of eight. */
  lemma CallCosts(cfg: Config, r: Run, t: TaskId, k: nat, brisk: bool, n: nat)
    requires IsInitialRun(cfg, r) && k < |r.acts| && r.acts[k] == Begin(t)
    requires forall j :: 0 <= j < |r.acts| ==> r.acts[j] != CallLogin(t) && !(r.acts[j].CallFailover? && r.acts[j].task == t)
    requires forall j :: 0 <= j < |r.states| ==> |r.states[j].sh.hosts| <= n
    requires brisk ==> Last(r).now - r.states[k].now < RENEW_AGE
    ensures Count(Last(r).log, t, Requests) <= 2
    ensures Count(Last(r).log, t, Probes) <= TwoWalks(n)
    ensures Count(Last(r).log, t, Posts) <= (if brisk then 8 else 10)
  {
    RequestBudget(cfg, r, t, k, false, n);
    Credentials.BirthNeverDecreases(cfg, r, 0, k);
    FromIsRun(cfg, r, k);
    RequestCosts(cfg, From(r, k), t, brisk, n);
  }

  lemma ProbesNotNegative(st: State, t: TaskId, n: nat)
    requires |st.sh.hosts| <= n && (t in st.tasks ==> Bounded(st.tasks[t].pc, n))
    ensures t in st.tasks ==> ProbesLeft(st.tasks[t].pc, n) >= 0
  {
  }

  /** The steps taken and those still to come are within the bound. */
  predicate OnSchedule(st: State, t: TaskId, turns: nat, n: nat) {
    if t in st.tasks then turns + StepsLeft(st.tasks[t].pc, st.tasks[t].flight, n) <= 2 * n + 14 else turns == 0
  }

  lemma ScheduleStep(cfg: Config, st: State, a: Action, after: State, t: TaskId, from: State, turns: nat, n: nat)
    requires Enabled(cfg, st, a) && after == Perform(cfg, st, a) && a != CallLogin(t) && !(a.CallFailover? && a.task == t)
    requires |st.sh.hosts| <= n && WithinBudget(st, t, from, false, n) && OnSchedule(st, t, turns, n)
    ensures OnSchedule(after, t, turns + One(ActsAs(a, t)), n)
  {
    if ActsAs(a, t) {
      if t in st.tasks {
        OwnStep(cfg, st, a, t, false, n);
      } else {
        BeginPays(cfg, st.sh, st.now, false, n);
      }
    }
  }

  lemma TurnsPlus(acts: seq<Action>, k: nat, i: nat, t: TaskId)
    requires k <= i < |acts|
    ensures Turns(acts, k, i + 1, t) == Turns(acts, k, i, t) + One(ActsAs(acts[i], t))
  {
    var before := StepsOf(acts, k, i, t);
    assert StepsOf(acts, k, i + 1, t) == if ActsAs(acts[i], t) then before + {i} else before;
  }

  lemma NoTurns(acts: seq<Action>, k: nat, t: TaskId)
    requires k <= |acts|
    ensures Turns(acts, k, k, t) == 0
  {
    assert StepsOf(acts, k, k, t) == {};
  }

  /** A call ends: however the others are scheduled, it takes at most 2n + 14 steps. */
  lemma {:induction false} RequestTerminates(cfg: Config, r: Run, t: TaskId, i: nat, n: nat)
    requires IsRun(cfg, r) && i < |r.states|
    requires t !in r.states[0].tasks && r.states[0].sh.birth <= r.states[0].now
    requires forall j :: 0 <= j < |r.acts| ==> r.acts[j] != CallLogin(t) && !(r.acts[j].CallFailover? && r.acts[j].task == t)
    requires forall j :: 0 <= j < |r.states| ==> |r.states[j].sh.hosts| <= n
    ensures Turns(r.acts, 0, i, t) <= 2 * n + 14
    ensures OnSchedule(r.states[i], t, Turns(r.acts, 0, i, t), n)
  {
    if i == 0 {
      NoTurns(r.acts, 0, t);
    } else {
      var st, a, after := r.states[i - 1], r.acts[i - 1], r.states[i];
      RequestTerminates(cfg, r, t, i - 1, n);
      RequestBudget(cfg, r, t, i - 1, false, n);
      ScheduleStep(cfg, st, a, after, t, r.states[0], Turns(r.acts, 0, i - 1, t), n);
      TurnsPlus(r.acts, 0, i - 1, t);
    }
    RequestBudget(cfg, r, t, i, false, n);
    ProbesNotNegative(r.states[i], t, n);
  }

  // ---- a consumer's own failover --------------------------------------------------------------------------

  /** What a consumer's call has sent since `base`, with what it may still send: n probes and nothing else;
      and its steps. */
  predicate WithinFailover(st: State, t: TaskId, base: State, turns: int, n: nat) {
    && t in st.tasks
    && var task := st.tasks[t];
       && Bounded(task.pc, n) && Shaped(task.pc, task.flight) && task.started <= st.now
       && turns + StepsLeft(task.pc, task.flight, n) <= n + 1
       && forall kind ::
            Count(st.log, t, kind) - Count(base.log, t, kind) + Left(kind, task.pc, Any, n) <= if kind.Probes? then n else 0
  }

  lemma FailoverStep(cfg: Config, st: State, a: Action, after: State, t: TaskId, base: State, turns: int, n: nat)
    requires Enabled(cfg, st, a) && after == Perform(cfg, st, a) && |st.sh.hosts| <= n
    requires WithinFailover(st, t, base, turns, n)
    ensures WithinFailover(after, t, base, turns + One(ActsAs(a, t)), n)
  {
    forall kind
      ensures Count(after.log, t, kind) == Count(st.log, t, kind) +
                (if ActsAs(a, t) && after.tasks[t].flight.Some? then One(IsKind(kind, after.tasks[t].flight.value.call)) else 0)
    {
      CountStep(cfg, st, a, t, kind);
    }
    if ActsAs(a, t) {
      OwnStep(cfg, st, a, t, false, n);
      FailoverPaid(st, after, t, base, n);
    } else {
      assert after.tasks[t] == st.tasks[t] && after.now >= st.now;
    }
  }

  lemma FailoverPaid(st: State, after: State, t: TaskId, base: State, n: nat)
    requires t in st.tasks && t in after.tasks
    requires var task, next := st.tasks[t], after.tasks[t];
      Pays(task.pc, Any, Next(after.sh, next.pc, next.flight), Any, n)
    requires forall kind :: Count(after.log, t, kind) == Count(st.log, t, kind) + Paid(after, t, kind)
    requires forall kind ::
               Count(st.log, t, kind) - Count(base.log, t, kind) + Left(kind, st.tasks[t].pc, Any, n) <= if kind.Probes? then n else 0
    ensures forall kind ::
              Count(after.log, t, kind) - Count(base.log, t, kind) + Left(kind, after.tasks[t].pc, Any, n) <= if kind.Probes? then n else 0
  {
    forall kind
      ensures Count(after.log, t, kind) - Count(base.log, t, kind) + Left(kind, after.tasks[t].pc, Any, n) <= if kind.Probes? then n else 0
    {
      assert Left(kind, after.tasks[t].pc, Any, n) + Paid(after, t, kind) <= Left(kind, st.tasks[t].pc, Any, n);
    }
  }

  lemma FailoverBegins(cfg: Config, st: State, t: TaskId, from: Option<Host>, verify: bool, n: nat)
    requires Enabled(cfg, st, CallFailover(t, from, verify)) && |st.sh.hosts| <= n
    ensures WithinFailover(Perform(cfg, st, CallFailover(t, from, verify)), t, st, 0, n)
  {
    var a := CallFailover(t, from, verify);
    forall kind
      ensures Count(Perform(cfg, st, a).log, t, kind) == Count(st.log, t, kind)
    {
      CountStep(cfg, st, a, t, kind);
    }
  }

  lemma FailoverNext(cfg: Config, r: Run, t: TaskId, base: State, k: nat, i: nat, n: nat)
    requires IsRun(cfg, r) && k <= i < |r.acts| && |r.states[i].sh.hosts| <= n
    requires WithinFailover(r.states[i], t, base, Turns(r.acts, k, i, t), n)
    ensures WithinFailover(r.states[i + 1], t, base, Turns(r.acts, k, i + 1, t), n)
  {
    var st, a, after := r.states[i], r.acts[i], r.states[i + 1];
    FailoverStep(cfg, st, a, after, t, base, Turns(r.acts, k, i, t), n);
    TurnsPlus(r.acts, k, i, t);
  }

  lemma {:induction false} FailoverRun(cfg: Config, r: Run, t: TaskId, base: State, k: nat, i: nat, n: nat)
    requires IsRun(cfg, r) && k <= i < |r.states| && WithinFailover(r.states[k], t, base, 0, n)
    requires forall j :: 0 <= j < |r.states| ==> |r.states[j].sh.hosts| <= n
    ensures WithinFailover(r.states[i], t, base, Turns(r.acts, k, i, t), n)
    decreases i
  {
    if i == k {
      NoTurns(r.acts, k, t);
    } else {
      FailoverRun(cfg, r, t, base, k, i - 1, n);
      FailoverNext(cfg, r, t, base, k, i - 1, n);
    }
  }

  /** At most n probes since `base`, no data request and no ticket post, and n + 1 steps. */
  predicate SpentOneWalk(st: State, t: TaskId, base: State, turns: int, n: nat) {
    && Count(st.log, t, Probes) - Count(base.log, t, Probes) <= n
    && Count(st.log, t, Requests) <= Count(base.log, t, Requests)
    && Count(st.log, t, Posts) <= Count(base.log, t, Posts)
    && turns <= n + 1
  }

  /** A consumer's own `failover`, begun at step `k`: at most n probes, no data request and no ticket post;
      and it takes at most n + 1 steps after that, however the others are scheduled. */
  lemma ConsumerCosts(cfg: Config, r: Run, t: TaskId, from: Option<Host>, verify: bool, k: nat, n: nat)
    requires IsRun(cfg, r) && k < |r.acts| && r.acts[k] == CallFailover(t, from, verify)
    requires forall j :: 0 <= j < |r.states| ==> |r.states[j].sh.hosts| <= n
    ensures SpentOneWalk(Last(r), t, r.states[k], Turns(r.acts, k + 1, |r.acts|, t), n)
  {
    FailoverBegun(cfg, r, t, from, verify, k, n);
    FailoverRun(cfg, r, t, r.states[k], k + 1, |r.acts|, n);
    FailoverCounts(Last(r), t, r.states[k], Turns(r.acts, k + 1, |r.acts|, t), n);
  }

  lemma FailoverBegun(cfg: Config, r: Run, t: TaskId, from: Option<Host>, verify: bool, k: nat, n: nat)
    requires IsRun(cfg, r) && k < |r.acts| && r.acts[k] == CallFailover(t, from, verify) && |r.states[k].sh.hosts| <= n
    ensures WithinFailover(r.states[k + 1], t, r.states[k], 0, n)
  {
    FailoverBegins(cfg, r.states[k], t, from, verify, n);
  }

  lemma FailoverCounts(st: State, t: TaskId, base: State, turns: int, n: nat)
    requires WithinFailover(st, t, base, turns, n) && |st.sh.hosts| <= n
    ensures SpentOneWalk(st, t, base, turns, n)
  {
    ProbesNotNegative(st, t, n);
    assert Left(Probes, st.tasks[t].pc, Any, n) == ProbesLeft(st.tasks[t].pc, n);
    assert Left(Requests, st.tasks[t].pc, Any, n) >= 0 && Left(Posts, st.tasks[t].pc, Any, n) >= 0;
  }
}
