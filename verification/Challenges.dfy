/** Challenges that are sent as tickets: the first step of a login stores its challenge where every
    request looks for the ticket. */
module Challenges {
  import opened Wrappers
  import opened Protocol

  // ---- where the stored ticket comes from ----------------------------------------------------------------

  predicate WritesTicket(e: Event) {
    e.Got? && e.reply.Granted? && e.reply.ticket.Some?
  }

  /** The answer of a first step that asks for a code: its ticket is a challenge. */
  predicate IsFirstStep(e: Event) {
    WritesTicket(e) && e.call.Login? && e.reply.rest == NeedsTfa
  }

  /** The last answer with a ticket. */
  function LastWrite(log: seq<Event>): Option<Event> {
    if log == [] then None
    else
      var e := log[|log| - 1];
      if WritesTicket(e) then Some(e) else LastWrite(log[..|log| - 1])
  }

  lemma {:induction false} LastWriteMeaning(log: seq<Event>)
    ensures match LastWrite(log)
            case Some(e) =>
              && WritesTicket(e)
              && exists m :: 0 <= m < |log| && log[m] == e && forall n :: m < n < |log| ==> !WritesTicket(log[n])
            case None => forall n :: 0 <= n < |log| ==> !WritesTicket(log[n])
  {
    if log == [] {
    } else {
      var init := log[..|log| - 1];
      LastWriteMeaning(init);
      if !WritesTicket(log[|log| - 1]) && LastWrite(init).Some? {
        var m :| 0 <= m < |init| && init[m] == LastWrite(init).value && forall n :: m < n < |init| ==> !WritesTicket(init[n]);
        assert log[m] == init[m];
      }
    }
  }

  lemma LastWritePlus(log: seq<Event>, e: Event)
    ensures LastWrite(log + [e]) == if WritesTicket(e) then Some(e) else LastWrite(log)
  {
    assert (log + [e])[..|log|] == log;
  }

  function TicketOf(write: Option<Event>): string {
    if write.Some? && WritesTicket(write.value) then write.value.reply.ticket.value else ""
  }

  /** What was sent at `k` was the ticket stored at that time. */
  ghost predicate SentStored(cfg: Config, log: seq<Event>, k: nat)
    requires k < |log| && log[k].Sent?
  {
    var stored := TicketOf(LastWrite(log[..k]));
    match log[k].call
    case Data(_, creds) => if cfg.auth.ApiToken? then creds == Token else creds.Pair? && creds.ticket == stored
    case Probe(creds) => if cfg.auth.ApiToken? then creds == Token else creds.Pair? && creds.ticket == stored
    case Login(password) => password == stored || (cfg.auth.Password? && password == cfg.auth.secret)
    case Challenge(ticket) => ticket == stored
  }

  ghost predicate StoredInv(cfg: Config, st: State) {
    && st.sh.ticket == TicketOf(LastWrite(st.log))
    && (forall t :: t in st.tasks ==> Shaped(st.tasks[t].pc, st.tasks[t].flight))
    && forall k :: 0 <= k < |st.log| && st.log[k].Sent? ==> SentStored(cfg, st.log, k)
  }

  predicate SendsStored(cfg: Config, next: Next) {
    next.flight.Some? ==>
      match next.flight.value.call
      case Data(_, creds) => creds == CredsOf(cfg, next.sh)
      case Probe(creds) => creds == CredsOf(cfg, next.sh)
      case Login(password) => password == next.sh.ticket || (cfg.auth.Password? && password == cfg.auth.secret)
      case Challenge(ticket) => ticket == next.sh.ticket
  }

  lemma ResumeSends(cfg: Config, sh: Shared, pc: Pc, reply: Reply, now: real)
    ensures SendsStored(cfg, Resume(cfg, sh, pc, reply, now))
  {
  }

  lemma ResumeStores(cfg: Config, sh: Shared, pc: Pc, reply: Reply, now: real)
    ensures var next, stored := Resume(cfg, sh, pc, reply, now), if pc.LoggingIn? then StoreTokens(sh, reply, now) else sh;
      next.sh.ticket == stored.ticket && next.sh.csrf == stored.csrf && next.sh.birth == stored.birth
  {
  }

  lemma OtherSteps(cfg: Config, st: State, a: Action)
    requires Enabled(cfg, st, a) && !a.Deliver?
    ensures var after := Perform(cfg, st, a);
      after.sh.ticket == st.sh.ticket && after.sh.csrf == st.sh.csrf && after.sh.birth == st.sh.birth
    ensures a.Begin? ==> SendsStored(cfg, BeginCheck(cfg, st.sh, First, st.now))
    ensures a.CallLogin? ==> SendsStored(cfg, StartLogin(cfg, st.sh, Direct))
    ensures a.Acquire? ==> SendsStored(cfg, EnterFailover(cfg, st.sh, st.tasks[a.task].pc.cause, st.now))
  {
  }

  lemma LogPlus(cfg: Config, log: seq<Event>, e: Event)
    requires forall k :: 0 <= k < |log| && log[k].Sent? ==> SentStored(cfg, log, k)
    requires e.Sent? ==> SentStored(cfg, log + [e], |log|)
    ensures forall k :: 0 <= k < |log + [e]| && (log + [e])[k].Sent? ==> SentStored(cfg, log + [e], k)
  {
    forall k | 0 <= k < |log + [e]| && (log + [e])[k].Sent?
      ensures SentStored(cfg, log + [e], k)
    {
      if k < |log| {
        assert (log + [e])[..k] == log[..k] && (log + [e])[k] == log[k];
      }
    }
  }

  lemma ApplyStored(cfg: Config, st: State, t: TaskId, next: Next)
    requires next.sh.ticket == TicketOf(LastWrite(st.log)) && SendsStored(cfg, next) && Shaped(next.pc, next.flight)
    requires forall u :: u in st.tasks && u != t ==> Shaped(st.tasks[u].pc, st.tasks[u].flight)
    requires forall k :: 0 <= k < |st.log| && st.log[k].Sent? ==> SentStored(cfg, st.log, k)
    ensures StoredInv(cfg, Apply(st, t, next))
  {
    var after := Apply(st, t, next);
    if next.flight.Some? {
      var e := Sent(t, next.flight.value.url, next.flight.value.call);
      assert after.log == st.log + [e] && (st.log + [e])[..|st.log|] == st.log;
      LastWritePlus(st.log, e);
      LogPlus(cfg, st.log, e);
    } else {
      assert after.log == st.log;
    }
  }

  lemma DeliverStored(cfg: Config, st: State, t: TaskId, reply: Reply)
    requires StoredInv(cfg, st) && Enabled(cfg, st, Deliver(t, reply))
    ensures StoredInv(cfg, Perform(cfg, st, Deliver(t, reply)))
  {
    var pc, flight := st.tasks[t].pc, st.tasks[t].flight;
    ResumeSends(cfg, st.sh, pc, reply, st.now);
    ResumeStores(cfg, st.sh, pc, reply, st.now);
    ResumeShaped(cfg, st.sh, pc, reply, st.now);
    LastWritePlus(st.log, Note(t, flight, reply));
    LogPlus(cfg, st.log, Note(t, flight, reply));
    assert reply.Granted? ==> pc.LoggingIn?;
    ApplyStored(cfg, Noted(st, t, reply), t, Resume(cfg, st.sh, pc, reply, st.now));
  }

  lemma StoredStep(cfg: Config, st: State, a: Action)
    requires StoredInv(cfg, st) && Enabled(cfg, st, a)
    ensures StoredInv(cfg, Perform(cfg, st, a))
  {
    if a.Deliver? {
      DeliverStored(cfg, st, a.task, a.reply);
    } else {
      OtherSteps(cfg, st, a);
      match a {
        case Begin(t) => ApplyStored(cfg, st, t, BeginCheck(cfg, st.sh, First, st.now));
        case CallFailover(t, from, verify) =>
          ApplyStored(cfg, st, t, Next(st.sh, WantSwitch(Consumer(from, verify)), None));
        case CallLogin(t) => ApplyStored(cfg, st, t, StartLogin(cfg, st.sh, Direct));
        case Acquire(t) =>
          PerformShaped(cfg, st, a, t);
          ApplyStored(cfg, st, t, EnterFailover(cfg, st.sh, st.tasks[t].pc.cause, st.now));
        case _ =>
      }
    }
  }

  /** On every run whatever: the stored ticket is that of the last answer with a ticket, and what is sent
      is what is stored. */
  lemma {:induction false} LastTicketIsSent(cfg: Config, r: Run, i: nat)
    requires IsInitialRun(cfg, r) && i < |r.states|
    ensures StoredInv(cfg, r.states[i])
  {
    if i == 0 {
    } else {
      var st, a := r.states[i - 1], r.acts[i - 1];
      LastTicketIsSent(cfg, r, i - 1);
      StoredStep(cfg, st, a);
    }
  }

  // ---- which requests carry a challenge -------------------------------------------------------------------

  /** The server never issues a ticket twice, nor an empty one. */
  ghost predicate TicketsDiffer(log: seq<Event>) {
    && (forall m :: 0 <= m < |log| && WritesTicket(log[m]) ==> log[m].reply.ticket.value != "")
    && forall m, n :: 0 <= m < n < |log| && WritesTicket(log[m]) && WritesTicket(log[n]) ==>
         log[m].reply.ticket.value != log[n].reply.ticket.value
  }

  ghost predicate IsChallenge(log: seq<Event>, ticket: string) {
    exists m :: 0 <= m < |log| && IsFirstStep(log[m]) && log[m].reply.ticket.value == ticket
  }

  lemma StoredChallenge(log: seq<Event>, k: nat)
    requires TicketsDiffer(log) && k <= |log|
    ensures var last := LastWrite(log[..k]);
      IsChallenge(log, TicketOf(last)) <==> last.Some? && IsFirstStep(last.value)
  {
    LastWriteMeaning(log[..k]);
    var last := LastWrite(log[..k]);
    if last.Some? {
      var m :| 0 <= m < k && log[..k][m] == last.value;
      assert log[m] == last.value;
      if IsChallenge(log, TicketOf(last)) {
        var n :| 0 <= n < |log| && IsFirstStep(log[n]) && log[n].reply.ticket.value == TicketOf(last);
        assert n == m;
      }
    }
  }

  /** The ticket in store is a challenge exactly if the last answer with a ticket was that of a first step
      that asks for a code; and a request or a probe carries a challenge exactly if that was so when it was
      sent, whoever logged in and whoever sends. */
  lemma WhoCarriesAChallenge(cfg: Config, r: Run, i: nat, k: nat)
    requires IsInitialRun(cfg, r) && i < |r.states| && cfg.auth.Password?
    requires var log := r.states[i].log;
      TicketsDiffer(log) && k < |log| && log[k].Sent? && (log[k].call.Data? || log[k].call.Probe?)
    ensures var st := r.states[i];
      var last, stored := LastWrite(st.log[..k]), LastWrite(st.log);
      && st.log[k].call.creds.Pair?
      && (IsChallenge(st.log, st.sh.ticket) <==> stored.Some? && IsFirstStep(stored.value))
      && (IsChallenge(st.log, st.log[k].call.creds.ticket) <==> last.Some? && IsFirstStep(last.value))
  {
    var log := r.states[i].log;
    LastTicketIsSent(cfg, r, i);
    StoredChallenge(log, k);
    StoredChallenge(log, |log|);
    assert log[..|log|] == log;
  }

  // ---- how long --------------------------------------------------------------------------------------------

  lemma TokensStay(cfg: Config, st: State, a: Action)
    requires Enabled(cfg, st, a) && !(a.Deliver? && a.reply.Granted?)
    ensures var after := Perform(cfg, st, a);
      after.sh.ticket == st.sh.ticket && after.sh.csrf == st.sh.csrf && after.sh.birth == st.sh.birth
  {
    if a.Deliver? {
      ResumeStores(cfg, st.sh, st.tasks[a.task].pc, a.reply, st.now);
    } else {
      OtherSteps(cfg, st, a);
    }
  }

  /** Step `i` is the answer of a first step, and no login is answered after it up to state `j`: the code
      is on its way, was refused, or never arrived. */
  ghost predicate CodeNotAccepted(cfg: Config, r: Run, t: TaskId, ticket: string, csrf: string, i: nat, j: nat) {
    && IsRun(cfg, r) && i < j < |r.states|
    && r.acts[i] == Deliver(t, Granted(Some(ticket), Some(csrf), NeedsTfa))
    && t in r.states[i].tasks && r.states[i].tasks[t].pc.LoggingIn? && !r.states[i].tasks[t].pc.tfa
    && forall m {:trigger r.acts[m]} :: i < m < j ==> !(r.acts[m].Deliver? && r.acts[m].reply.Granted?)
  }

  lemma {:induction false} ChallengeStays(cfg: Config, r: Run, t: TaskId, ticket: string, csrf: string, i: nat, j: nat)
    requires CodeNotAccepted(cfg, r, t, ticket, csrf, i, j)
    ensures var sh := r.states[j].sh; sh.ticket == ticket && sh.csrf == csrf && sh.birth == r.states[i].now
    decreases j
  {
    var st, a := r.states[j - 1], r.acts[j - 1];
    if j == i + 1 {
      ResumeStores(cfg, st.sh, st.tasks[t].pc, a.reply, st.now);
    } else {
      ChallengeStays(cfg, r, t, ticket, csrf, i, j - 1);
      TokensStay(cfg, st, a);
    }
  }

  /** Whatever the login is for, and whoever else runs: as long as the code is not accepted - refused, or
      still on its way - the challenge is in store as a ticket that is fresh. A request that begins then
      is sent with it exactly if less than `renew_age` passed since; afterwards it is sent as a password
      to renew it. */
  lemma FailedCodeLeavesTheChallenge(cfg: Config, r: Run, t: TaskId, ticket: string, csrf: string, i: nat, j: nat)
    requires CodeNotAccepted(cfg, r, t, ticket, csrf, i, j) && cfg.auth.Password? && InRange(r.states[j].sh)
    ensures var st := r.states[j];
      var begun := BeginCheck(cfg, st.sh, First, st.now);
      begun.flight == Some(
        if st.now - r.states[i].now < RENEW_AGE
        then Flight(st.sh.baseUrl, Data(Some(Current(st.sh)), Pair(ticket, csrf)))
        else Flight(st.sh.authUrl, Login(ticket)))
  {
    ChallengeStays(cfg, r, t, ticket, csrf, i, j);
  }
}
