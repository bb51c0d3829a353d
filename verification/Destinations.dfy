/** Where everything is sent: to the host in use, whatever it is. */
module Destinations {
  import opened Wrappers
  import opened Protocol

  /** Both URLs name the host in use, as far as the list has one at the index; for a token the second
      one is never used. */
  predicate UrlsOk(cfg: Config, sh: Shared) {
    && (InRange(sh) ==> sh.baseUrl == Base(Current(sh)))
    && (cfg.auth.Password? ==> sh.authUrl == sh.baseUrl)
  }

  /** What a step sends goes to the host in use once the step is done. */
  predicate SendsHere(cfg: Config, next: Next) {
    && UrlsOk(cfg, next.sh)
    && (next.flight.Some? && InRange(next.sh) ==>
          next.flight.value.url == Base(Current(next.sh))
          || (cfg.auth.ApiToken? && (next.flight.value.call.Login? || next.flight.value.call.Challenge?)))
  }

  lemma LearnKeepsUrls(cfg: Config, sh: Shared, entries: seq<Entry>, replace: bool)
    requires UrlsOk(cfg, sh)
    ensures UrlsOk(cfg, Learn(sh, entries, replace))
  {
  }

  lemma VerdictSends(cfg: Config, sh: Shared, cause: Cause, verdict: Verdict, now: real)
    requires UrlsOk(cfg, sh)
    ensures SendsHere(cfg, AfterFailover(cfg, sh, cause, verdict, now))
  {
  }

  lemma WalkSends(cfg: Config, sh: Shared, start: nat, offset: nat, limit: nat, cause: Cause, now: real)
    requires UrlsOk(cfg, sh)
    ensures SendsHere(cfg, WalkOn(cfg, sh, start, offset, limit, cause, now))
  {
    if offset >= limit {
      VerdictSends(cfg, UseHost(sh, start), cause, if start < |sh.hosts| then Moved(false) else Threw(IndexFault), now);
    }
  }

  lemma EnterSends(cfg: Config, sh: Shared, cause: Cause, now: real)
    requires UrlsOk(cfg, sh)
    ensures SendsHere(cfg, EnterFailover(cfg, sh, cause, now))
  {
    VerdictSends(cfg, sh, cause, Moved(true), now);
    VerdictSends(cfg, sh, cause, Threw(IndexFault), now);
    WalkSends(cfg, sh, sh.index, 1, |sh.hosts|, cause, now);
  }

  lemma HeardSends(cfg: Config, sh: Shared, pc: Pc, reply: Reply, now: real)
    requires UrlsOk(cfg, sh) && Holds(pc)
    ensures SendsHere(cfg, Resume(cfg, sh, pc, reply, now))
  {
    match Hear(sh, reply) {
      case No =>
        match pc {
          case Asking(start, cause) => WalkSends(cfg, sh, start, 1, |sh.hosts|, cause, now);
          case Walking(start, offset, limit, cause) => WalkSends(cfg, sh, start, offset + 1, limit, cause, now);
        }
      case Yes =>
        VerdictSends(cfg, sh, pc.cause, Moved(pc.Walking?), now);
        VerdictSends(cfg, sh, pc.cause, Threw(IndexFault), now);
      case Mute(fault) => VerdictSends(cfg, sh, pc.cause, Threw(fault), now);
    }
  }

  lemma ResumeSends(cfg: Config, sh: Shared, pc: Pc, reply: Reply, now: real)
    requires UrlsOk(cfg, sh)
    ensures SendsHere(cfg, Resume(cfg, sh, pc, reply, now))
  {
    if Holds(pc) {
      HeardSends(cfg, sh, pc, reply, now);
    }
  }

  /** Whatever the step sends goes to the host in use. */
  ghost predicate AllSentHere(cfg: Config, before: State, after: State) {
    && before.log <= after.log
    && forall k :: |before.log| <= k < |after.log| && after.log[k].Sent? && InRange(after.sh) ==>
         || after.log[k].url == Base(Current(after.sh))
         || (cfg.auth.ApiToken? && (after.log[k].call.Login? || after.log[k].call.Challenge?))
  }

  lemma ApplySends(cfg: Config, before: State, st: State, t: TaskId, next: Next)
    requires SendsHere(cfg, next) && before.log <= st.log
    requires forall k :: |before.log| <= k < |st.log| ==> !st.log[k].Sent?
    ensures UrlsOk(cfg, Apply(st, t, next).sh) && AllSentHere(cfg, before, Apply(st, t, next))
  {
  }

  lemma StepSends(cfg: Config, st: State, a: Action)
    requires Enabled(cfg, st, a) && UrlsOk(cfg, st.sh)
    ensures UrlsOk(cfg, Perform(cfg, st, a).sh) && AllSentHere(cfg, st, Perform(cfg, st, a))
  {
    match a {
      case Tick(_) =>
      case Begin(t) => ApplySends(cfg, st, st, t, BeginCheck(cfg, st.sh, First, st.now));
      case CallFailover(t, from, verify) => ApplySends(cfg, st, st, t, Next(st.sh, WantSwitch(Consumer(from, verify)), None));
      case CallLogin(t) => ApplySends(cfg, st, st, t, StartLogin(cfg, st.sh, Direct));
      case Acquire(t) =>
        EnterSends(cfg, st.sh, st.tasks[t].pc.cause, st.now);
        ApplySends(cfg, st, st, t, EnterFailover(cfg, st.sh, st.tasks[t].pc.cause, st.now));
      case Deliver(t, reply) =>
        ResumeSends(cfg, st.sh, st.tasks[t].pc, reply, st.now);
        ApplySends(cfg, st, Noted(st, t, reply), t, Resume(cfg, st.sh, st.tasks[t].pc, reply, st.now));
      case LearnHosts(entries, replace) => LearnKeepsUrls(cfg, st.sh, entries, replace);
    }
  }

  lemma {:induction false} UrlsStayOk(cfg: Config, r: Run, i: nat)
    requires IsInitialRun(cfg, r) && i < |r.states|
    ensures UrlsOk(cfg, r.states[i].sh)
  {
    if i == 0 {
    } else {
      var st, a := r.states[i - 1], r.acts[i - 1];
      UrlsStayOk(cfg, r, i - 1);
      StepSends(cfg, st, a);
    }
  }

  lemma {:induction false} TokensDoNotLogIn(cfg: Config, r: Run, i: nat)
    requires IsInitialRun(cfg, r) && i < |r.states| && cfg.auth.ApiToken?
    ensures forall t :: t in r.states[i].tasks ==> !r.states[i].tasks[t].pc.LoggingIn?
    ensures forall k :: 0 <= k < |r.states[i].log| && r.states[i].log[k].Sent? ==>
              r.states[i].log[k].call.Data? || r.states[i].log[k].call.Probe?
  {
    if i == 0 {
    } else {
      var st, a := r.states[i - 1], r.acts[i - 1];
      TokensDoNotLogIn(cfg, r, i - 1);
      TokenStep(cfg, st, a);
    }
  }

  lemma TokenStep(cfg: Config, st: State, a: Action)
    requires Enabled(cfg, st, a) && cfg.auth.ApiToken?
    requires forall t :: t in st.tasks ==> !st.tasks[t].pc.LoggingIn?
    requires forall k :: 0 <= k < |st.log| && st.log[k].Sent? ==> st.log[k].call.Data? || st.log[k].call.Probe?
    ensures var after := Perform(cfg, st, a);
      && (forall t :: t in after.tasks ==> !after.tasks[t].pc.LoggingIn?)
      && forall k :: 0 <= k < |after.log| && after.log[k].Sent? ==> after.log[k].call.Data? || after.log[k].call.Probe?
  {
  }

  /** On every run, for both kinds of authentication: whatever a step sends - a first attempt, a repeat, a
      probe, a renewal, a login with the password or its TFA step - goes to the host in use once the step
      is done, as long as the index is within the list. */
  lemma EverythingGoesToTheHostInUse(cfg: Config, r: Run, i: nat, k: nat)
    requires IsInitialRun(cfg, r) && i < |r.acts|
    requires |r.states[i].log| <= k < |r.states[i + 1].log| && r.states[i + 1].log[k].Sent? && InRange(r.states[i + 1].sh)
    ensures r.states[i + 1].log[k].url == Base(Current(r.states[i + 1].sh))
  {
    var st, a, after := r.states[i], r.acts[i], r.states[i + 1];
    UrlsStayOk(cfg, r, i);
    StepSends(cfg, st, a);
    if cfg.auth.ApiToken? {
      TokensDoNotLogIn(cfg, r, i + 1);
    }
  }
}
