/** What every request carries and where it goes, on every run: tickets and tokens that belong
    together, the host a first attempt names, fresh tickets, and TFA challenges of one's own. */
module Credentials {
  import opened Wrappers
  import opened Protocol

  // ---- one login answer --------------------------------------------------------------------------

  /** An answer with a ticket and no CSRF token: the code has stored the ticket when it raises. */
  predicate HalfIssued(reply: Reply) {
    reply.Granted? && reply.ticket.Some? && reply.csrf.None?
  }

  predicate Issues(reply: Reply, ticket: string, csrf: string) {
    reply.Granted? && reply.ticket == Some(ticket) && reply.csrf == Some(csrf)
  }

  /** The stored pair stays one pair unless the answer carries half of a new one. */
  lemma StoreKeepsPairs(sh: Shared, reply: Reply, now: real)
    ensures var after := StoreTokens(sh, reply, now);
      ((after.ticket == sh.ticket && after.csrf == sh.csrf) || Issues(reply, after.ticket, after.csrf))
      <==> !(HalfIssued(reply) && reply.ticket.value != sh.ticket)
  {
  }

  // ---- the record of a run -------------------------------------------------------------------------

  /** The two tokens came in one answer before position `k`; before the first login both are empty. */
  ghost predicate Issued(log: seq<Event>, k: nat, ticket: string, csrf: string)
    requires k <= |log|
  {
    || (ticket == "" && csrf == "")
    || exists j :: 0 <= j < k && log[j].Got? && Issues(log[j].reply, ticket, csrf)
  }

  ghost predicate CredsOk(cfg: Config, log: seq<Event>, k: nat, creds: Creds)
    requires k <= |log|
  {
    match creds
    case Token => cfg.auth.ApiToken?
    case Pair(ticket, csrf) => cfg.auth.Password? && Issued(log, k, ticket, csrf)
  }

  /** What is true of the `k`-th event when it was a sending. */
  ghost predicate SentOk(cfg: Config, log: seq<Event>, k: nat)
    requires k < |log| && log[k].Sent?
  {
    match log[k].call
    case Data(before, creds) => CredsOk(cfg, log, k, creds) && (before.Some? ==> log[k].url == Base(before.value))
    case Probe(creds) => CredsOk(cfg, log, k, creds)
    case Login(password) =>
      (cfg.auth.Password? && password == cfg.auth.secret) || exists csrf :: Issued(log, k, password, csrf)
    case Challenge(ticket) =>
      && k > 0 && log[k - 1].Got? && log[k - 1].task == log[k].task && log[k - 1].call.Login?
      && log[k - 1].reply.Granted? && log[k - 1].reply.ticket == Some(ticket)
  }

  ghost predicate LogOk(cfg: Config, log: seq<Event>) {
    forall k :: 0 <= k < |log| && log[k].Sent? ==> SentOk(cfg, log, k)
  }

  /** The URL of the client names the host in use whenever there is one, walks and replaced
      lists included. */
  predicate UrlOk(sh: Shared) {
    InRange(sh) ==> sh.baseUrl == Base(Current(sh))
  }

  /** The ticket of a first attempt was younger than `renew_age` at the time its check began. */
  predicate FreshTask(cfg: Config, sh: Shared, pc: Pc, now: real) {
    match pc
    case LoggingIn(Renewal(_, read), _) => read <= now
    case LoggingIn(Fallback(_, read), _) => read <= now
    case Trying(_, read) => cfg.auth.Password? ==> read - sh.birth < RENEW_AGE
    case _ => true
  }

  ghost predicate CredsInv(cfg: Config, st: State) {
    && LogOk(cfg, st.log)
    && Issued(st.log, |st.log|, st.sh.ticket, st.sh.csrf)
    && UrlOk(st.sh)
    && (cfg.auth.Password? ==> st.sh.authUrl == st.sh.baseUrl)
    && st.sh.birth <= st.now
    && forall t :: t in st.tasks ==>
         Shaped(st.tasks[t].pc, st.tasks[t].flight) && FreshTask(cfg, st.sh, st.tasks[t].pc, st.now)
  }

  // ---- one task --------------------------------------------------------------------------------------

  /** What one atomic step hands to the next await. */
  predicate NextOk(cfg: Config, before: Shared, stored: Shared, next: Next, now: real) {
    && UrlOk(next.sh)
    && (before.authUrl == before.baseUrl ==> next.sh.authUrl == next.sh.baseUrl)
    && next.sh.ticket == stored.ticket && next.sh.csrf == stored.csrf && next.sh.birth == stored.birth
    && FreshTask(cfg, next.sh, next.pc, now)
    && (next.flight.Some? ==>
          match next.flight.value.call
          case Data(host, creds) =>
            creds == CredsOf(cfg, stored) && (host.Some? ==> next.flight.value.url == Base(host.value))
          case Probe(creds) => creds == CredsOf(cfg, stored)
          case Login(password) => password == stored.ticket || (cfg.auth.Password? && password == cfg.auth.secret)
          case Challenge(_) => true)
  }

  predicate NoChallenge(next: Next) {
    next.flight.Some? ==> !next.flight.value.call.Challenge?
  }

  lemma CheckOk(cfg: Config, sh: Shared, round: Round, read: real, fault: Option<Fault>, now: real)
    requires UrlOk(sh) && sh.birth <= now && read <= now
    requires fault.None? && cfg.auth.Password? ==> read - sh.birth < RENEW_AGE
    ensures NextOk(cfg, sh, sh, AfterCheck(cfg, sh, round, read, fault), now)
    ensures NoChallenge(AfterCheck(cfg, sh, round, read, fault))
  {
  }

  lemma BeginOk(cfg: Config, sh: Shared, round: Round, now: real)
    requires UrlOk(sh) && sh.birth <= now
    ensures NextOk(cfg, sh, sh, BeginCheck(cfg, sh, round, now), now) && NoChallenge(BeginCheck(cfg, sh, round, now))
  {
    if !Stale(cfg, sh, now) {
      CheckOk(cfg, sh, round, now, None, now);
    }
  }

  lemma LoginOk(cfg: Config, sh: Shared, why: LoginFor, tfa: bool, reply: Reply, now: real)
    requires UrlOk(sh) && sh.birth <= now && FreshTask(cfg, sh, LoggingIn(why, tfa), now)
    ensures var next := OnLogin(cfg, sh, why, tfa, reply, now);
      && NextOk(cfg, sh, StoreTokens(sh, reply, now), next, now)
      && (!NoChallenge(next) ==>
            !tfa && reply.Granted? && reply.ticket == Some(next.flight.value.call.ticket))
  {
    var stored := StoreTokens(sh, reply, now);
    var fault := LoginFault(reply, tfa);
    if !NeedsCode(reply, tfa) {
      match why {
        case Renewal(round, read) => CheckOk(cfg, stored, round, read, fault, now);
        case Fallback(round, read) => CheckOk(cfg, stored, round, read, fault, now);
        case _ =>
      }
    }
  }

  lemma FailoverEndOk(cfg: Config, sh: Shared, cause: Cause, verdict: Verdict, now: real)
    requires UrlOk(sh) && sh.birth <= now
    ensures NextOk(cfg, sh, sh, AfterFailover(cfg, sh, cause, verdict, now), now)
    ensures NoChallenge(AfterFailover(cfg, sh, cause, verdict, now))
  {
    BeginOk(cfg, sh, Second, now);
  }

  lemma WalkOnOk(cfg: Config, sh: Shared, start: nat, offset: nat, limit: nat, cause: Cause, now: real)
    requires UrlOk(sh) && sh.birth <= now
    ensures NextOk(cfg, sh, sh, WalkOn(cfg, sh, start, offset, limit, cause, now), now)
    ensures NoChallenge(WalkOn(cfg, sh, start, offset, limit, cause, now))
  {
    if offset >= limit {
      FailoverEndOk(cfg, UseHost(sh, start), cause, if start < |sh.hosts| then Moved(false) else Threw(IndexFault), now);
    }
  }

  lemma EnterOk(cfg: Config, sh: Shared, cause: Cause, now: real)
    requires UrlOk(sh) && sh.birth <= now
    ensures NextOk(cfg, sh, sh, EnterFailover(cfg, sh, cause, now), now) && NoChallenge(EnterFailover(cfg, sh, cause, now))
  {
    FailoverEndOk(cfg, sh, cause, Moved(true), now);
    FailoverEndOk(cfg, sh, cause, Threw(IndexFault), now);
    WalkOnOk(cfg, sh, sh.index, 1, |sh.hosts|, cause, now);
  }

  lemma HeardOk(cfg: Config, sh: Shared, pc: Pc, reply: Reply, now: real)
    requires UrlOk(sh) && sh.birth <= now && Holds(pc)
    ensures NextOk(cfg, sh, sh, Resume(cfg, sh, pc, reply, now), now) && NoChallenge(Resume(cfg, sh, pc, reply, now))
  {
    match Hear(sh, reply) {
      case No =>
        match pc {
          case Asking(start, cause) => WalkOnOk(cfg, sh, start, 1, |sh.hosts|, cause, now);
          case Walking(start, offset, limit, cause) => WalkOnOk(cfg, sh, start, offset + 1, limit, cause, now);
        }
      case Yes =>
        FailoverEndOk(cfg, sh, pc.cause, Moved(pc.Walking?), now);
        FailoverEndOk(cfg, sh, pc.cause, Threw(IndexFault), now);
      case Mute(fault) => FailoverEndOk(cfg, sh, pc.cause, Threw(fault), now);
    }
  }

  lemma ResumeOk(cfg: Config, sh: Shared, pc: Pc, reply: Reply, now: real)
    requires UrlOk(sh) && sh.birth <= now && FreshTask(cfg, sh, pc, now)
    ensures var next := Resume(cfg, sh, pc, reply, now);
      var stored := if pc.LoggingIn? then StoreTokens(sh, reply, now) else sh;
      && NextOk(cfg, sh, stored, next, now)
      && (!NoChallenge(next) ==>
            pc.LoggingIn? && !pc.tfa && reply.Granted? && reply.ticket == Some(next.flight.value.call.ticket))
  {
    match pc {
      case LoggingIn(why, tfa) => LoginOk(cfg, sh, why, tfa, reply, now);
      case Asking(_, _) => HeardOk(cfg, sh, pc, reply, now);
      case Walking(_, _, _, _) => HeardOk(cfg, sh, pc, reply, now);
      case _ =>
    }
  }

  // ---- all tasks ------------------------------------------------------------------------------------

  lemma IssuedLater(log: seq<Event>, longer: seq<Event>, k: nat, m: nat, ticket: string, csrf: string)
    requires log <= longer && k <= |log| && k <= m <= |longer| && Issued(log, k, ticket, csrf)
    ensures Issued(longer, m, ticket, csrf)
  {
    if !(ticket == "" && csrf == "") {
      var j :| 0 <= j < k && log[j].Got? && Issues(log[j].reply, ticket, csrf);
      assert longer[j] == log[j];
    }
  }

  lemma SentOkLater(cfg: Config, log: seq<Event>, longer: seq<Event>, k: nat)
    requires log <= longer && k < |log| && log[k].Sent? && SentOk(cfg, log, k)
    ensures SentOk(cfg, longer, k)
  {
    assert longer[k] == log[k] && (k > 0 ==> longer[k - 1] == log[k - 1]);
    match log[k].call {
      case Data(_, Pair(ticket, csrf)) => IssuedLater(log, longer, k, k, ticket, csrf);
      case Probe(Pair(ticket, csrf)) => IssuedLater(log, longer, k, k, ticket, csrf);
      case Login(password) =>
        if !(cfg.auth.Password? && password == cfg.auth.secret) {
          var csrf :| Issued(log, k, password, csrf);
          IssuedLater(log, longer, k, k, password, csrf);
        }
      case _ =>
    }
  }

  lemma LogOkPrefix(cfg: Config, log: seq<Event>, e: Event)
    requires LogOk(cfg, log)
    requires e.Sent? ==> SentOk(cfg, log + [e], |log|)
    ensures LogOk(cfg, log + [e])
  {
    var longer := log + [e];
    forall k | 0 <= k < |longer| && longer[k].Sent?
      ensures SentOk(cfg, longer, k)
    {
      if k < |log| {
        assert longer[k] == log[k];
        SentOkLater(cfg, log, longer, k);
      }
    }
  }

  /** A step keeps the record in order: `noted` is the record with the reply on it. */
  lemma ApplyOk(cfg: Config, st: State, t: TaskId, stored: Shared, next: Next)
    requires LogOk(cfg, st.log) && Issued(st.log, |st.log|, stored.ticket, stored.csrf)
    requires st.sh.birth <= stored.birth <= st.now && (cfg.auth.Password? ==> st.sh.authUrl == st.sh.baseUrl)
    requires forall u :: u in st.tasks && u != t ==>
               Shaped(st.tasks[u].pc, st.tasks[u].flight) && FreshTask(cfg, st.sh, st.tasks[u].pc, st.now)
    requires NextOk(cfg, st.sh, stored, next, st.now) && Shaped(next.pc, next.flight)
    requires NoChallenge(next) || SentOk(cfg, st.log + Emitted(t, next.flight), |st.log|)
    ensures CredsInv(cfg, Apply(st, t, next))
  {
    var after := Apply(st, t, next);
    if next.flight.Some? {
      var e := Sent(t, next.flight.value.url, next.flight.value.call);
      assert after.log == st.log + [e];
      IssuedLater(st.log, after.log, |st.log|, |st.log|, stored.ticket, stored.csrf);
      LogOkPrefix(cfg, st.log, e);
    } else {
      assert after.log == st.log;
    }
    IssuedLater(st.log, after.log, |st.log|, |after.log|, stored.ticket, stored.csrf);
  }

  lemma DeliverOk(cfg: Config, st: State, t: TaskId, reply: Reply)
    requires CredsInv(cfg, st) && Enabled(cfg, st, Deliver(t, reply)) && !HalfIssued(reply)
    ensures CredsInv(cfg, Perform(cfg, st, Deliver(t, reply)))
  {
    var pc := st.tasks[t].pc;
    var noted := Noted(st, t, reply);
    var stored := if pc.LoggingIn? then StoreTokens(st.sh, reply, st.now) else st.sh;
    var next := Resume(cfg, st.sh, pc, reply, st.now);
    ResumeOk(cfg, st.sh, pc, reply, st.now);
    ResumeShaped(cfg, st.sh, pc, reply, st.now);
    LogOkPrefix(cfg, st.log, Note(t, st.tasks[t].flight, reply));
    assert st.tasks[t].flight.Some? ==> noted.log[|st.log|].reply == reply;
    StoreKeepsPairs(st.sh, reply, st.now);
    IssuedLater(st.log, noted.log, |st.log|, |noted.log|, st.sh.ticket, st.sh.csrf);
    ApplyOk(cfg, noted, t, stored, next);
  }

  lemma PerformOk(cfg: Config, st: State, a: Action)
    requires CredsInv(cfg, st) && Enabled(cfg, st, a)
    requires a.Deliver? ==> !HalfIssued(a.reply)
    ensures CredsInv(cfg, Perform(cfg, st, a))
  {
    match a {
      case Tick(_) =>
      case Begin(t) =>
        BeginOk(cfg, st.sh, First, st.now);
        ApplyOk(cfg, st, t, st.sh, BeginCheck(cfg, st.sh, First, st.now));
      case CallFailover(t, from, verify) =>
        ApplyOk(cfg, st, t, st.sh, Next(st.sh, WantSwitch(Consumer(from, verify)), None));
      case CallLogin(t) => ApplyOk(cfg, st, t, st.sh, StartLogin(cfg, st.sh, Direct));
      case Acquire(t) =>
        var cause := st.tasks[t].pc.cause;
        EnterOk(cfg, st.sh, cause, st.now);
        PerformShaped(cfg, st, a, t);
        ApplyOk(cfg, st, t, st.sh, EnterFailover(cfg, st.sh, cause, st.now));
      case Deliver(t, reply) => DeliverOk(cfg, st, t, reply);
      case LearnHosts(_, _) =>
    }
  }

  /** No answer of the run carries half a pair of tokens. */
  ghost predicate WellFormed(r: Run) {
    forall i :: 0 <= i < |r.acts| && r.acts[i].Deliver? ==> !HalfIssued(r.acts[i].reply)
  }

  /** On every run, under any interleaving and with lists replaced at any time: tickets travel with
      the CSRF token of their own login, first attempts go to the host they remember, challenges
      answer the ticket just received, and no first attempt starts with a ticket past its age. */
  lemma {:induction false} CredentialsBelongTogether(cfg: Config, r: Run, i: nat)
    requires IsInitialRun(cfg, r) && WellFormed(r) && i < |r.states|
    ensures CredsInv(cfg, r.states[i])
  {
    if i == 0 {
    } else {
      CredentialsBelongTogether(cfg, r, i - 1);
      PerformOk(cfg, r.states[i - 1], r.acts[i - 1]);
    }
  }

  /** The issue time of the ticket never goes back, and never lies ahead of the clock. */
  lemma {:induction false} BirthNeverDecreases(cfg: Config, r: Run, i: nat, j: nat)
    requires IsRun(cfg, r) && i <= j < |r.states| && r.states[i].sh.birth <= r.states[i].now
    ensures r.states[i].sh.birth <= r.states[j].sh.birth <= r.states[j].now
    ensures r.states[i].now <= r.states[j].now
    decreases j
  {
    if i == j {
    } else {
      BirthNeverDecreases(cfg, r, i, j - 1);
      BirthStep(cfg, r.states[j - 1], r.acts[j - 1]);
    }
  }

  lemma BirthStep(cfg: Config, st: State, a: Action)
    requires Enabled(cfg, st, a) && st.sh.birth <= st.now
    ensures var after := Perform(cfg, st, a); st.sh.birth <= after.sh.birth <= after.now && st.now <= after.now
  {
    if a.Deliver? {
      ResumeBirth(cfg, st.sh, st.tasks[a.task].pc, a.reply, st.now);
    }
  }

  lemma ResumeBirth(cfg: Config, sh: Shared, pc: Pc, reply: Reply, now: real)
    ensures var next := Resume(cfg, sh, pc, reply, now);
      next.sh.birth == if pc.LoggingIn? then StoreTokens(sh, reply, now).birth else sh.birth
  {
  }
}
