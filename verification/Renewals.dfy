/** A burst of failed ticket renewals: `failover` is then called without `from_host` and without asking
    the host in use, so every one of them walks on, past hosts that answer. */
module Renewals {
  import opened Wrappers
  import opened Protocol
  import opened HostSafety
  import Walks

  /** Callers that neither say where they were nor have the host in use asked: failed renewals, and
      consumers that ask for the same. */
  predicate Blind(cause: Cause) {
    FromHost(cause).None? && !VerifyCurrent(cause)
  }

  predicate Waits(st: State, t: TaskId) {
    t in st.tasks && st.tasks[t].pc.WantSwitch? && Blind(st.tasks[t].pc.cause)
  }

  predicate Distinct(ts: seq<TaskId>) {
    forall i, j :: 0 <= i < j < |ts| ==> ts[i] != ts[j]
  }

  /** Whoever is in `after` and was heard from since `before` answered the probe. */
  ghost predicate AllAnswered(before: seq<Event>, after: seq<Event>) {
    before <= after
    && forall k :: |before| <= k < |after| && after[k].Got? ==> after[k].call.Probe? && after[k].reply.Answered?
  }

  /** One waiting renewal leaves the host in use, whatever that host would have said, for the next one
      in the list if that answers. */
  lemma OneMove(cfg: Config, st: State, t: TaskId, status: int)
    requires InRange(st.sh) && |st.sh.hosts| >= 2 && st.lock.None? && Waits(st, t)
    ensures Enabled(cfg, st, Acquire(t)) && Enabled(cfg, Perform(cfg, st, Acquire(t)), Deliver(t, Answered(status)))
    ensures var moved := Perform(cfg, Perform(cfg, st, Acquire(t)), Deliver(t, Answered(status)));
      && moved.sh == UseHost(st.sh, (st.sh.index + 1) % |st.sh.hosts|)
      && moved.lock.None?
      && (forall u :: u in st.tasks && u != t ==> u in moved.tasks && moved.tasks[u] == st.tasks[u])
      && AllAnswered(st.log, moved.log)
  {
    var walking, cause := Perform(cfg, st, Acquire(t)), st.tasks[t].pc.cause;
    assert walking.tasks[t].pc == Walking(st.sh.index, 1, |st.sh.hosts|, cause);
    AfterFailoverStays(cfg, walking.sh, cause, Moved(true), st.now);
  }

  /** Once around the cluster is nowhere. */
  lemma Around(y: nat, n: nat)
    requires n > 0
    ensures (y + n) % n == y % n
  {
    var q, r := y / n, y % n;
    var p, s := (y + n) / n, (y + n) % n;
    var d := p - q - 1;
    assert n * p == n * q + n + n * d;
    assert n * d == r - s;
    assert d >= 1 ==> n * d >= n;
    assert d <= -1 ==> n * d + n <= 0;
  }

  /** `k` steps around the cluster, one by one. */
  function Onward(i: nat, k: nat, n: nat): nat
    requires n > 0
    decreases k
  {
    if k == 0 then i else Onward((i + 1) % n, k - 1, n)
  }

  lemma {:induction false} OnwardIsModulo(i: nat, k: nat, n: nat)
    requires i < n
    ensures Onward(i, k, n) == (i + k) % n
    decreases k
  {
    ModOnce(i + 1, n);
    if k == 0 {
      ModOnce(i, n);
    } else {
      OnwardIsModulo((i + 1) % n, k - 1, n);
      if i + 1 == n {
        Around(k - 1, n);
      }
    }
  }

  /** Some renewals wait for the lock, which is free. */
  predicate Ready(st: State, ts: seq<TaskId>) {
    && InRange(st.sh) && |st.sh.hosts| >= 2 && st.lock.None?
    && forall i :: 0 <= i < |ts| ==> Waits(st, ts[i])
  }

  /** The first of them moves the client, and the others still wait. */
  lemma MoveFirst(cfg: Config, r: Run, ts: seq<TaskId>) returns (moved: Run)
    requires IsInitialRun(cfg, r) && IsCalm(r) && ts != [] && Distinct(ts) && Ready(Last(r), ts)
    ensures IsInitialRun(cfg, moved) && IsCalm(moved) && Ready(Last(moved), ts[1..])
    ensures Last(moved).sh.hosts == Last(r).sh.hosts
    ensures Last(moved).sh.index == (Last(r).sh.index + 1) % |Last(r).sh.hosts|
    ensures AllAnswered(Last(r).log, Last(moved).log)
  {
    var st := Last(r);
    OneMove(cfg, st, ts[0], 401);
    var walking := ProlongCalmly(cfg, r, Acquire(ts[0]));
    moved := ProlongCalmly(cfg, walking, Deliver(ts[0], Answered(401)));
    forall i | 0 <= i < |ts[1..]|
      ensures Waits(Last(moved), ts[1..][i])
    {
      assert ts[1..][i] == ts[i + 1] && Waits(st, ts[i + 1]);
    }
  }

  lemma AnsweredThroughout(a: seq<Event>, b: seq<Event>, c: seq<Event>)
    requires AllAnswered(a, b) && AllAnswered(b, c)
    ensures AllAnswered(a, c)
  {
    forall k | |a| <= k < |c| && c[k].Got?
      ensures c[k].call.Probe? && c[k].reply.Answered?
    {
      if k < |b| {
        assert c[k] == b[k];
      }
    }
  }

  lemma {:induction false} MoveAll(cfg: Config, r: Run, ts: seq<TaskId>) returns (longer: Run)
    requires IsInitialRun(cfg, r) && IsCalm(r) && Distinct(ts) && Ready(Last(r), ts)
    ensures IsInitialRun(cfg, longer) && IsCalm(longer)
    ensures Last(longer).sh.hosts == Last(r).sh.hosts
    ensures Last(longer).sh.index == Onward(Last(r).sh.index, |ts|, |Last(r).sh.hosts|)
    ensures AllAnswered(Last(r).log, Last(longer).log)
    decreases |ts|
  {
    if ts == [] {
      longer := r;
    } else {
      var moved := MoveFirst(cfg, r, ts);
      longer := MoveAll(cfg, moved, ts[1..]);
      AnsweredThroughout(Last(r).log, Last(moved).log, Last(longer).log);
    }
  }

  /** Any number of waiting renewals can each move the client one host on, with every host answering. */
  lemma RenewalsEachMove(cfg: Config, r: Run, ts: seq<TaskId>) returns (longer: Run)
    requires IsInitialRun(cfg, r) && IsCalm(r) && Distinct(ts) && Ready(Last(r), ts)
    ensures IsInitialRun(cfg, longer) && IsCalm(longer)
    ensures Last(longer).sh.hosts == Last(r).sh.hosts
    ensures Last(longer).sh.index == (Last(r).sh.index + |ts|) % |Last(r).sh.hosts|
    ensures AllAnswered(Last(r).log, Last(longer).log)
  {
    longer := MoveAll(cfg, r, ts);
    OnwardIsModulo(Last(r).sh.index, |ts|, |Last(r).sh.hosts|);
  }

  /** `k` requests begin with a ticket past its age, and the host answers none of the renewals. */
  lemma {:induction false} RenewalsFail(cfg: Config, r: Run, k: nat) returns (longer: Run)
    requires IsInitialRun(cfg, r) && IsCalm(r) && cfg.auth.Password?
    requires var st := Last(r);
      |st.sh.hosts| >= 2 && st.lock.None? && st.tasks == map[] && st.now - st.sh.birth >= RENEW_AGE
      && forall i :: 0 <= i < |st.log| ==> !st.log[i].Got?
    ensures IsInitialRun(cfg, longer) && IsCalm(longer)
    ensures Last(longer).sh == Last(r).sh && Last(longer).lock.None? && Last(longer).now == Last(r).now
    ensures forall t: TaskId :: t in Last(longer).tasks <==> t < k
    ensures forall t: TaskId :: t < k ==> Waits(Last(longer), t)
    ensures forall i :: 0 <= i < |Last(longer).log| && Last(longer).log[i].Got? ==> Last(longer).log[i].call.Login?
  {
    longer := r;
    if k == 0 {
    } else {
      var before := RenewalsFail(cfg, r, k - 1);
      var t := k - 1;
      var begun := ProlongCalmly(cfg, before, Begin(t));
      assert Last(begun).tasks[t].pc == LoggingIn(Renewal(First, Last(r).now), false);
      longer := ProlongCalmly(cfg, begun, Deliver(t, Unreachable));
      var read := Last(r).now;
      assert OnLogin(cfg, Last(begun).sh, Renewal(First, read), false, Unreachable, read).pc == WantSwitch(RenewalFailed);
      assert Waits(Last(longer), t);
      forall u: TaskId | u < t
        ensures Waits(Last(longer), u)
      {
        assert Waits(Last(before), u);
      }
    }
  }

  /** The promise made to a burst of requests is not kept for a burst of renewals: with any other host
      known, `k` of them can take the client `k` steps around the cluster while every probe is answered. */
  lemma RenewalsWalkPastAnsweringHosts(cfg: Config, entries: seq<Entry>, h: Host, k: nat) returns (r: Run)
    requires cfg.auth.Password? && Named(h) in entries && h != "" && h != cfg.configured
    ensures IsInitialRun(cfg, r) && IsCalm(r)
    ensures Last(r).sh.hosts == Kept([cfg.configured], entries) && |Last(r).sh.hosts| >= 2
    ensures Last(r).sh.index == k % |Last(r).sh.hosts|
    ensures forall i :: 0 <= i < |Last(r).log| && Last(r).log[i].Got? && Last(r).log[i].call.Probe? ==>
              Last(r).log[i].reply.Answered?
  {
    r := Run([Init(cfg, RENEW_AGE)], []);
    var first := Last(r).sh;
    LearnKeepsHost(cfg, first, entries, false);
    r := ProlongCalmly(cfg, r, LearnHosts(entries, false));
    var hosts := Last(r).sh.hosts;
    KeptExtends([cfg.configured], entries);
    assert cfg.configured in hosts && h in hosts;
    var failed := RenewalsFail(cfg, r, k);
    var ts := seq(k, i requires 0 <= i < k => i as TaskId);
    r := RenewalsEachMove(cfg, failed, ts);
    var before, after := Last(failed).log, Last(r).log;
    forall i | 0 <= i < |after| && after[i].Got? && after[i].call.Probe?
      ensures after[i].reply.Answered?
    {
    }
  }

  // ---- one is enough ---------------------------------------------------------------------------------------

  /** Every reply since is to a probe, and all hosts but `home` answer. */
  ghost predicate AllButHome(before: seq<Event>, after: seq<Event>, home: Host) {
    && before <= after
    && forall k :: |before| <= k < |after| && after[k].Got? ==>
         && after[k].call.Probe? && (after[k].reply.Answered? || after[k].reply.Unreachable?)
         && (after[k].reply.Answered? <==> after[k].url != Base(home))
  }

  /** A caller of any kind that waits for the lock and was not on another host. */
  predicate Mover(st: State, u: TaskId) {
    && u in st.tasks && st.tasks[u].pc.WantSwitch?
    && InRange(st.sh) && !Walks.Elsewhere(st.tasks[u].pc.cause, st.sh)
  }

  /** All other tasks are as they were. */
  predicate OthersWait(before: State, after: State, u: TaskId) {
    forall t :: t in before.tasks && t != u ==> t in after.tasks && after.tasks[t] == before.tasks[t]
  }

  /** `u` asks the host after `start`. */
  ghost predicate AsksNext(cfg: Config, st: State, u: TaskId, start: nat, cause: Cause) {
    && Walks.Inside(cfg, st, u, start, cause) && start < |st.sh.hosts|
    && st.tasks[u].pc == Walking(start, 1, |st.sh.hosts|, cause)
    && st.sh.index == (start + 1) % |st.sh.hosts|
  }

  lemma EntersWalk(cfg: Config, st: State, u: TaskId)
    requires Safe(cfg, st) && Mover(st, u) && st.lock.None? && |st.sh.hosts| >= 2
    ensures var after, cause := Perform(cfg, st, Acquire(u)), st.tasks[u].pc.cause;
      && after.sh.hosts == st.sh.hosts && OthersWait(st, after, u) && AllButHome(st.log, after.log, Current(st.sh))
      && (if VerifyCurrent(cause) then
            && Walks.Inside(cfg, after, u, st.sh.index, cause)
            && after.tasks[u].pc == Asking(st.sh.index, cause) && after.sh.index == st.sh.index
          else AsksNext(cfg, after, u, st.sh.index, cause))
  {
    Walks.Enters(cfg, st, u);
  }

  lemma HomeIsSilent(cfg: Config, st: State, u: TaskId, start: nat, cause: Cause)
    requires Walks.Inside(cfg, st, u, start, cause) && st.tasks[u].pc == Asking(start, cause)
    requires st.sh.index == start && |st.sh.hosts| >= 2
    ensures Enabled(cfg, st, Deliver(u, Unreachable))
    ensures var after := Perform(cfg, st, Deliver(u, Unreachable));
      && after.sh.hosts == st.sh.hosts && OthersWait(st, after, u) && AllButHome(st.log, after.log, Current(st.sh))
      && AsksNext(cfg, after, u, start, cause)
  {
    Walks.HearInside(cfg, st, u, Unreachable, start, cause);
  }

  lemma NextAnswers(cfg: Config, st: State, u: TaskId, start: nat, cause: Cause)
    requires AsksNext(cfg, st, u, start, cause) && |st.sh.hosts| >= 2
    ensures Enabled(cfg, st, Deliver(u, Answered(401)))
    ensures var after := Perform(cfg, st, Deliver(u, Answered(401)));
      && after.sh == st.sh && after.lock.None? && OthersWait(st, after, u)
      && AllButHome(st.log, after.log, st.sh.hosts[start])
  {
    ModIsOther(start, 1, |st.sh.hosts|);
    Walks.HearInside(cfg, st, u, Answered(401), start, cause);
  }

  lemma AllButHomeThroughout(a: seq<Event>, b: seq<Event>, c: seq<Event>, home: Host)
    requires AllButHome(a, b, home) && AllButHome(b, c, home)
    ensures AllButHome(a, c, home)
  {
    forall k | |a| <= k < |c| && c[k].Got?
      ensures c[k].call.Probe? && (c[k].reply.Answered? || c[k].reply.Unreachable?)
      ensures c[k].reply.Answered? <==> c[k].url != Base(home)
    {
      if k < |b| {
        assert c[k] == b[k];
      }
    }
  }

  lemma WalkBegins(cfg: Config, r: Run, u: TaskId) returns (walking: Run)
    requires IsInitialRun(cfg, r) && IsCalm(r) && Mover(Last(r), u) && Last(r).lock.None? && |Last(r).sh.hosts| >= 2
    ensures IsInitialRun(cfg, walking) && IsCalm(walking)
    ensures AsksNext(cfg, Last(walking), u, Last(r).sh.index, Last(r).tasks[u].pc.cause)
    ensures Last(walking).sh.hosts == Last(r).sh.hosts && OthersWait(Last(r), Last(walking), u)
    ensures AllButHome(Last(r).log, Last(walking).log, Current(Last(r).sh))
  {
    var st := Last(r);
    var cause := st.tasks[u].pc.cause;
    ReachableSafe(cfg, r, |r.acts|);
    EntersWalk(cfg, st, u);
    walking := ProlongCalmly(cfg, r, Acquire(u));
    if VerifyCurrent(cause) {
      var asking := Last(walking);
      HomeIsSilent(cfg, asking, u, st.sh.index, cause);
      walking := ProlongCalmly(cfg, walking, Deliver(u, Unreachable));
      AllButHomeThroughout(st.log, asking.log, Last(walking).log, Current(st.sh));
    }
  }

  /** Where the host in use is silent and the next one answers, any caller moves the client there. */
  lemma MoverMoves(cfg: Config, r: Run, u: TaskId) returns (moved: Run)
    requires IsInitialRun(cfg, r) && IsCalm(r) && Mover(Last(r), u) && Last(r).lock.None? && |Last(r).sh.hosts| >= 2
    ensures IsInitialRun(cfg, moved) && IsCalm(moved) && Last(moved).lock.None?
    ensures Last(moved).sh.hosts == Last(r).sh.hosts
    ensures Last(moved).sh.index == (Last(r).sh.index + 1) % |Last(r).sh.hosts|
    ensures OthersWait(Last(r), Last(moved), u)
    ensures AllButHome(Last(r).log, Last(moved).log, Current(Last(r).sh))
  {
    var walking := WalkBegins(cfg, r, u);
    NextAnswers(cfg, Last(walking), u, Last(r).sh.index, Last(r).tasks[u].pc.cause);
    moved := ProlongCalmly(cfg, walking, Deliver(u, Answered(401)));
    AllButHomeThroughout(Last(r).log, Last(walking).log, Last(moved).log, Current(Last(r).sh));
  }

  /** The converse of one move per burst: let two callers wait while nobody is inside, one of them blind -
      a failed renewal - and the other of any kind, a failed request on the host in use say. Then a run
      exists in which the client moves twice; and with three hosts or more, it moves past a host that
      answers although only the one it started from does not. */
  lemma OneBlindCallerIsEnough(cfg: Config, r: Run, u: TaskId, t: TaskId) returns (once: Run, twice: Run)
    requires IsInitialRun(cfg, r) && IsCalm(r) && u != t && Mover(Last(r), u) && Waits(Last(r), t)
    requires Last(r).lock.None? && |Last(r).sh.hosts| >= 2
    ensures IsInitialRun(cfg, once) && IsCalm(once) && IsInitialRun(cfg, twice) && IsCalm(twice)
    ensures Last(once).lock.None? && Last(twice).lock.None?
    ensures Last(twice).sh.hosts == Last(once).sh.hosts == Last(r).sh.hosts
    ensures var i, n := Last(r).sh.index, |Last(r).sh.hosts|;
      && Last(once).sh.index == (i + 1) % n != i
      && Last(twice).sh.index == ((i + 1) % n + 1) % n != Last(once).sh.index
    ensures Last(r).log <= Last(once).log <= Last(twice).log
    ensures |Last(r).sh.hosts| >= 3 ==> AllButHome(Last(r).log, Last(twice).log, Current(Last(r).sh))
  {
    var st, n := Last(r), |Last(r).sh.hosts|;
    once := MoverMoves(cfg, r, u);
    assert Waits(Last(once), t);
    ReachableSafe(cfg, once, |once.acts|);
    assert !Walks.Elsewhere(Last(once).tasks[t].pc.cause, Last(once).sh);
    twice := BlindMoves(cfg, once, t);
    ModIsOther(st.sh.index, 1, n);
    ModIsOther(Last(once).sh.index, 1, n);
    ReachableSafe(cfg, r, |r.acts|);
    if n >= 3 {
      TwoAreNotBack(st.sh.index, n);
      BothSteps(st.log, Last(once).log, Last(twice).log, Current(st.sh), Current(Last(twice).sh));
    }
  }

  lemma BlindStep(cfg: Config, st: State, t: TaskId)
    requires InRange(st.sh) && |st.sh.hosts| >= 2 && st.lock.None? && Waits(st, t)
    ensures Enabled(cfg, st, Acquire(t)) && Enabled(cfg, Perform(cfg, st, Acquire(t)), Deliver(t, Answered(401)))
    ensures var moved := Perform(cfg, Perform(cfg, st, Acquire(t)), Deliver(t, Answered(401)));
      && moved.sh.hosts == st.sh.hosts && moved.sh.index == (st.sh.index + 1) % |st.sh.hosts| < |st.sh.hosts|
      && moved.lock.None? && OnlyFrom(st.log, moved.log, Current(moved.sh))
  {
    OneMove(cfg, st, t, 401);
    ModOnce(st.sh.index + 1, |st.sh.hosts|);
  }

  /** A blind caller asks one candidate, and nobody else. */
  lemma BlindMoves(cfg: Config, r: Run, t: TaskId) returns (moved: Run)
    requires IsInitialRun(cfg, r) && IsCalm(r) && Waits(Last(r), t) && Last(r).lock.None?
    requires InRange(Last(r).sh) && |Last(r).sh.hosts| >= 2
    ensures IsInitialRun(cfg, moved) && IsCalm(moved) && Last(moved).lock.None? && InRange(Last(moved).sh)
    ensures Last(moved).sh.hosts == Last(r).sh.hosts
    ensures Last(moved).sh.index == (Last(r).sh.index + 1) % |Last(r).sh.hosts|
    ensures OnlyFrom(Last(r).log, Last(moved).log, Current(Last(moved).sh))
  {
    BlindStep(cfg, Last(r), t);
    var walking := ProlongCalmly(cfg, r, Acquire(t));
    moved := ProlongCalmly(cfg, walking, Deliver(t, Answered(401)));
  }

  /** Every reply since is an answer of `h`. */
  ghost predicate OnlyFrom(before: seq<Event>, after: seq<Event>, h: Host) {
    && before <= after
    && forall k :: |before| <= k < |after| && after[k].Got? ==>
         after[k].call.Probe? && after[k].reply.Answered? && after[k].url == Base(h)
  }

  lemma BothSteps(a: seq<Event>, b: seq<Event>, c: seq<Event>, home: Host, last: Host)
    requires AllButHome(a, b, home) && OnlyFrom(b, c, last) && last != home
    ensures AllButHome(a, c, home)
  {
    forall k | |a| <= k < |c| && c[k].Got?
      ensures c[k].call.Probe? && (c[k].reply.Answered? || c[k].reply.Unreachable?)
      ensures c[k].reply.Answered? <==> c[k].url != Base(home)
    {
      if k < |b| {
        assert c[k] == b[k];
      }
    }
  }

  lemma TwoAreNotBack(i: nat, n: nat)
    requires i < n && n >= 3
    ensures ((i + 1) % n + 1) % n != i && ((i + 1) % n + 1) % n < n
  {
    ModOnce(i + 1, n);
    ModOnce((i + 1) % n + 1, n);
  }
}
