/** Where the client points, in every reachable state: the list of hosts, the index in
    use and the two copies of the base URL agree, whatever the interleaving. */
module HostSafety {
  import opened Wrappers
  import opened Protocol

  ghost predicate NoDuplicates(s: seq<Host>) {
    forall i, j :: 0 <= i < j < |s| ==> s[i] != s[j]
  }

  /** The host in use, said consistently everywhere. */
  ghost predicate HostsOk(cfg: Config, sh: Shared) {
    && NoDuplicates(sh.hosts)
    && sh.hosts[0] == cfg.configured
    && InRange(sh)
    && sh.baseUrl == Base(Current(sh))
    && (sh.authUrl == sh.baseUrl || (cfg.auth.ApiToken? && sh.authUrl == Unset))
  }

  /** What the task inside `failover` still relies on. */
  ghost predicate WalkOk(sh: Shared, pc: Pc, flight: Option<Flight>) {
    && (Holds(pc) ==> flight.Some? && flight.value.url == sh.baseUrl && flight.value.call.Probe?)
    && match pc
       case Asking(start, _) => start == sh.index
       case Walking(start, offset, limit, _) =>
         1 <= offset < limit <= |sh.hosts| && start < |sh.hosts| && start != sh.index
       case _ => true
  }

  ghost predicate Safe(cfg: Config, st: State) {
    && HostsOk(cfg, st.sh)
    && (forall t :: t in st.tasks && Holds(st.tasks[t].pc) ==> st.lock == Some(t) && WalkOk(st.sh, st.tasks[t].pc, st.tasks[t].flight))
    && (st.lock.Some? ==> st.lock.value in st.tasks && Holds(st.tasks[st.lock.value].pc))
  }

  predicate SameHosts(a: Shared, b: Shared) {
    a.hosts == b.hosts && a.index == b.index && a.baseUrl == b.baseUrl && a.authUrl == b.authUrl
  }

  // ---- learn_hosts ----------------------------------------------------------------------

  lemma {:induction false} KeptExtends(kept: Hosts, entries: seq<Entry>)
    requires NoDuplicates(kept)
    ensures kept <= Kept(kept, entries)
    ensures NoDuplicates(Kept(kept, entries))
    ensures forall h :: h in Kept(kept, entries) <==> h in kept || (h != "" && Named(h) in entries)
    decreases |entries|
  {
    if entries == [] {
    } else {
      var entry := entries[0];
      var more := if entry.Named? && entry.host != "" && entry.host !in kept then kept + [entry.host] else kept;
      KeptExtends(more, entries[1..]);
      assert entries == [entry] + entries[1..];
    }
  }

  /** Merging takes the entries in their order: one more entry is appended if it is a text, not empty and
      not there yet, and is dropped otherwise. */
  lemma {:induction false} OneMoreEntry(kept: Hosts, entries: seq<Entry>, entry: Entry)
    ensures Kept(kept, []) == kept
    ensures var merged := Kept(kept, entries);
      Kept(kept, entries + [entry]) ==
      if entry.Named? && entry.host != "" && entry.host !in merged then merged + [entry.host] else merged
    decreases |entries|
  {
    var more := entries + [entry];
    if entries == [] {
      assert more[0] == entry && more[1..] == [];
    } else {
      var first := entries[0];
      var next := if first.Named? && first.host != "" && first.host !in kept then kept + [first.host] else kept;
      assert more[0] == first && more[1..] == entries[1..] + [entry];
      OneMoreEntry(next, entries[1..], entry);
    }
  }

  /** A host in use that is not among the merged ones comes last. */
  lemma CurrentComesLast(sh: Shared, entries: seq<Entry>, replace: bool)
    requires InRange(sh) && NoDuplicates(sh.hosts)
    ensures var merged, after := Kept(if replace then [sh.hosts[0]] else sh.hosts, entries), Learn(sh, entries, replace);
      && merged <= after.hosts
      && (Current(sh) in merged ==> after.hosts == merged)
      && (Current(sh) !in merged ==> |after.hosts| == |merged| + 1 && after.hosts[|merged|] == Current(sh))
  {
  }

  lemma IndexUnique(s: seq<Host>, i: nat)
    requires NoDuplicates(s) && i < |s|
    ensures IndexOf(s, s[i]) == i
  {
    var j := IndexOf(s, s[i]);
  }

  /** Learning hosts never changes the host in use, keeps the configured host first and keeps
      exactly the hosts it should; adding hosts does not even move the index. */
  lemma LearnKeepsHost(cfg: Config, sh: Shared, entries: seq<Entry>, replace: bool)
    requires HostsOk(cfg, sh)
    ensures var after := Learn(sh, entries, replace);
      && HostsOk(cfg, after)
      && Current(after) == Current(sh)
      && after == sh.(hosts := after.hosts, index := after.index)
      && (forall h :: h in after.hosts <==>
            || h == Current(sh) || (h != "" && Named(h) in entries)
            || h in (if replace then [cfg.configured] else sh.hosts))
      && (!replace ==> sh.hosts <= after.hosts && after.index == sh.index)
  {
    var base: Hosts := if replace then [sh.hosts[0]] else sh.hosts;
    KeptExtends(base, entries);
    var hosts := Learnt(sh, entries, replace);
    assert base <= hosts;
    assert NoDuplicates(hosts);
    if !replace {
      assert hosts[sh.index] == Current(sh);
      IndexUnique(hosts, sh.index);
    }
  }

  // ---- one task -----------------------------------------------------------------------------

  /** A task outside `failover` leaves every host field alone and cannot slip into it. */
  lemma OutsideFailover(cfg: Config, sh: Shared, pc: Pc, reply: Reply, now: real)
    requires !Holds(pc)
    ensures var next := Resume(cfg, sh, pc, reply, now);
      SameHosts(next.sh, sh) && !Holds(next.pc)
  {
  }

  lemma AfterFailoverStays(cfg: Config, sh: Shared, cause: Cause, verdict: Verdict, now: real)
    ensures var next := AfterFailover(cfg, sh, cause, verdict, now);
      next.sh == sh && !Holds(next.pc)
  {
  }

  /** One round of the modulus: all a walk needs to know about it. */
  lemma ModOnce(x: nat, n: nat)
    requires 0 < n && x < 2 * n
    ensures x % n == if x < n then x else x - n
  {
    var q := x / n;
    assert x == n * q + x % n;
    assert 0 <= q < 2;
    assert n * q == if q == 1 then n else 0;
  }

  lemma ModIsOther(start: nat, offset: nat, n: nat)
    requires start < n && 1 <= offset < n
    ensures (start + offset) % n < n && (start + offset) % n != start
  {
    ModOnce(start + offset, n);
  }

  lemma WalkOnSafe(cfg: Config, sh: Shared, start: nat, offset: nat, limit: nat, cause: Cause, now: real)
    requires HostsOk(cfg, sh) && start < |sh.hosts| && 1 <= offset && limit <= |sh.hosts|
    ensures var next := WalkOn(cfg, sh, start, offset, limit, cause, now);
      HostsOk(cfg, next.sh) && next.sh.hosts == sh.hosts && WalkOk(next.sh, next.pc, next.flight)
  {
    if offset < limit {
      ModIsOther(start, offset, |sh.hosts|);
    } else {
      AfterFailoverStays(cfg, UseHost(sh, start), cause, Moved(false), now);
    }
  }

  lemma EnterFailoverSafe(cfg: Config, sh: Shared, cause: Cause, now: real)
    requires HostsOk(cfg, sh)
    ensures var next := EnterFailover(cfg, sh, cause, now);
      HostsOk(cfg, next.sh) && next.sh.hosts == sh.hosts && WalkOk(next.sh, next.pc, next.flight)
  {
    AfterFailoverStays(cfg, sh, cause, Moved(true), now);
    WalkOnSafe(cfg, sh, sh.index, 1, |sh.hosts|, cause, now);
  }

  lemma InsideFailover(cfg: Config, sh: Shared, pc: Pc, flight: Option<Flight>, reply: Reply, now: real)
    requires Holds(pc) && HostsOk(cfg, sh) && WalkOk(sh, pc, flight)
    ensures var next := Resume(cfg, sh, pc, reply, now);
      HostsOk(cfg, next.sh) && next.sh.hosts == sh.hosts && WalkOk(next.sh, next.pc, next.flight)
  {
    match pc {
      case Asking(start, cause) =>
        WalkOnSafe(cfg, sh, start, 1, |sh.hosts|, cause, now);
        AfterFailoverStays(cfg, sh, cause, Moved(false), now);
        match Hear(sh, reply) {
          case Mute(fault) => AfterFailoverStays(cfg, sh, cause, Threw(fault), now);
          case _ =>
        }
      case Walking(start, offset, limit, cause) =>
        WalkOnSafe(cfg, sh, start, offset + 1, limit, cause, now);
        AfterFailoverStays(cfg, sh, cause, Moved(true), now);
        match Hear(sh, reply) {
          case Mute(fault) => AfterFailoverStays(cfg, sh, cause, Threw(fault), now);
          case _ =>
        }
    }
  }

  // ---- all tasks -----------------------------------------------------------------------------

  /** A step of a task that respects the lock keeps the whole client safe. */
  lemma ApplySafe(cfg: Config, st: State, t: TaskId, next: Next)
    requires Safe(cfg, st)
    requires HostsOk(cfg, next.sh) && WalkOk(next.sh, next.pc, next.flight) && next.sh.hosts == st.sh.hosts
    requires st.lock == Some(t) || st.lock == None || (SameHosts(next.sh, st.sh) && !Holds(next.pc))
    ensures Safe(cfg, Apply(st, t, next))
  {
    var after := Apply(st, t, next);
    forall u | u in after.tasks && Holds(after.tasks[u].pc)
      ensures after.lock == Some(u) && WalkOk(after.sh, after.tasks[u].pc, after.tasks[u].flight)
    {
      if u != t {
        assert st.lock == Some(u);
      }
    }
  }

  lemma PerformSafe(cfg: Config, st: State, a: Action)
    requires Safe(cfg, st) && Enabled(cfg, st, a) && Calm(st, a)
    ensures Safe(cfg, Perform(cfg, st, a))
  {
    match a {
      case Tick(_) =>
      case Begin(t) => ApplySafe(cfg, st, t, BeginCheck(cfg, st.sh, First, st.now));
      case CallFailover(t, from, verify) => ApplySafe(cfg, st, t, Next(st.sh, WantSwitch(Consumer(from, verify)), None));
      case CallLogin(t) => ApplySafe(cfg, st, t, StartLogin(cfg, st.sh, Direct));
      case Acquire(t) =>
        EnterFailoverSafe(cfg, st.sh, st.tasks[t].pc.cause, st.now);
        ApplySafe(cfg, st, t, EnterFailover(cfg, st.sh, st.tasks[t].pc.cause, st.now));
      case Deliver(t, reply) => DeliverSafe(cfg, st, t, reply);
      case LearnHosts(entries, replace) => LearnSafe(cfg, st, entries, replace);
    }
  }

  lemma DeliverSafe(cfg: Config, st: State, t: TaskId, reply: Reply)
    requires Safe(cfg, st) && Enabled(cfg, st, Deliver(t, reply))
    ensures Safe(cfg, Perform(cfg, st, Deliver(t, reply)))
  {
    var pc := st.tasks[t].pc;
    if Holds(pc) {
      InsideFailover(cfg, st.sh, pc, st.tasks[t].flight, reply, st.now);
    } else {
      OutsideFailover(cfg, st.sh, pc, reply, st.now);
    }
    ApplySafe(cfg, Noted(st, t, reply), t, Resume(cfg, st.sh, pc, reply, st.now));
  }

  lemma LearnSafe(cfg: Config, st: State, entries: seq<Entry>, replace: bool)
    requires Safe(cfg, st) && (replace ==> st.lock.None?)
    ensures Safe(cfg, Perform(cfg, st, LearnHosts(entries, replace)))
  {
    LearnKeepsHost(cfg, st.sh, entries, replace);
    var after := Learn(st.sh, entries, replace);
    forall t | t in st.tasks && Holds(st.tasks[t].pc)
      ensures st.lock == Some(t) && WalkOk(after, st.tasks[t].pc, st.tasks[t].flight)
    {
      assert !replace;
    }
  }

  /** Every state of a calm run is safe: any number of callers, failovers, logins and learnt
      hosts, in any order, under any network. */
  lemma {:induction false} ReachableSafe(cfg: Config, r: Run, i: nat)
    requires IsInitialRun(cfg, r) && IsCalm(r) && i < |r.states|
    ensures Safe(cfg, r.states[i])
  {
    if i == 0 {
    } else {
      ReachableSafe(cfg, r, i - 1);
      PerformSafe(cfg, r.states[i - 1], r.acts[i - 1]);
    }
  }

  /** The same from any safe state on. */
  lemma {:induction false} StaysSafe(cfg: Config, r: Run, i: nat)
    requires IsRun(cfg, r) && IsCalm(r) && Safe(cfg, r.states[0]) && i < |r.states|
    ensures Safe(cfg, r.states[i])
  {
    if i == 0 {
    } else {
      StaysSafe(cfg, r, i - 1);
      PerformSafe(cfg, r.states[i - 1], r.acts[i - 1]);
    }
  }

  // ---- learning during a walk --------------------------------------------------------------------

  /** `replace=True` during a walk does go wrong: two hosts, a walk back from the second one, and a fresh list without it
      leave the index beyond the list. */
  lemma ReplaceCanBreakTheClient(a: Host, b: Host)
    requires a != b && b != ""
    ensures exists r: Run ::
      && IsInitialRun(Config(a, ApiToken), r)
      && Last(r).lock.None? && !InRange(Last(r).sh)
      && 1 in Last(r).tasks && Last(r).tasks[1].pc == Done(Raised(IndexFault))
  {
    var cfg := Config(a, ApiToken);
    var r := MoveToSecond(a, b);
    var walk := Consumer(None, false);
    r := Prolong(cfg, r, CallFailover(1, None, false));
    r := Prolong(cfg, r, Acquire(1));
    assert Last(r).tasks[1].pc == Walking(1, 1, 2, walk) && Last(r).sh.index == 0;
    r := Prolong(cfg, r, LearnHosts([], true));
    assert Last(r).sh.hosts == [a];
    r := Prolong(cfg, r, Deliver(1, Unreachable));
  }

  /** A walk from the first of two hosts to the second, which answers. */
  lemma MoveToSecond(a: Host, b: Host) returns (r: Run)
    requires a != b && b != ""
    ensures IsInitialRun(Config(a, ApiToken), r)
    ensures Last(r).sh.hosts == [a, b] && Last(r).sh.index == 1 && Last(r).lock.None? && 1 !in Last(r).tasks
  {
    var cfg := Config(a, ApiToken);
    r := TwoHosts(a, b);
    r := Prolong(cfg, r, CallFailover(0, None, false));
    r := Prolong(cfg, r, Acquire(0));
    assert Last(r).tasks[0].pc == Walking(0, 1, 2, Consumer(None, false)) && Last(r).sh.index == 1;
    r := Prolong(cfg, r, Deliver(0, Answered(200)));
  }

  lemma TwoHosts(a: Host, b: Host) returns (r: Run)
    requires a != b && b != ""
    ensures IsInitialRun(Config(a, ApiToken), r) && IsCalm(r)
    ensures Last(r).sh == Shared([a, b], 0, Base(a), Unset, "", "", 0.0)
    ensures Last(r).lock.None? && Last(r).tasks == map[] && Last(r).log == []
  {
    r := Run([Init(Config(a, ApiToken), 0.0)], []);
    assert Kept([a], [Named(b)]) == Kept([a] + [b], []);
    r := Prolong(Config(a, ApiToken), r, LearnHosts([Named(b)], false));
    assert Last(r).sh.hosts == [a, b];
  }

  lemma Prolong(cfg: Config, r: Run, a: Action) returns (longer: Run)
    requires IsInitialRun(cfg, r) && Enabled(cfg, Last(r), a)
    ensures longer == Extend(cfg, r, a)
    ensures IsInitialRun(cfg, longer) && Last(longer) == Perform(cfg, Last(r), a)
  {
    longer := Extend(cfg, r, a);
    ExtendIsRun(cfg, r, a);
  }

  lemma ProlongCalmly(cfg: Config, r: Run, a: Action) returns (longer: Run)
    requires IsInitialRun(cfg, r) && IsCalm(r) && Enabled(cfg, Last(r), a) && Calm(Last(r), a)
    ensures IsInitialRun(cfg, longer) && IsCalm(longer) && Last(longer) == Perform(cfg, Last(r), a)
  {
    longer := Prolong(cfg, r, a);
    forall i | 0 <= i < |longer.acts|
      ensures Calm(longer.states[i], longer.acts[i])
    {
      if i < |r.acts| {
        assert longer.states[i] == r.states[i] && longer.acts[i] == r.acts[i];
      }
    }
  }

  /** Adding hosts during a walk: the next candidate is the intended one exactly when nothing new
      was added or the walk has not come to its wrap-around yet.  Otherwise hosts are skipped. */
  lemma AppendDuringWalk(cfg: Config, sh: Shared, entries: seq<Entry>, start: nat, offset: nat,
                         cause: Cause, now: real)
    requires HostsOk(cfg, sh)
    requires start < |sh.hosts| && 1 <= offset < |sh.hosts|
    ensures var n := |sh.hosts|;
      var grown := Learn(sh, entries, false);
      WalkOn(cfg, grown, start, offset, n, cause, now).sh.baseUrl == Base(sh.hosts[(start + offset) % n])
      <==> |grown.hosts| == n || start + offset < n
  {
    LearnKeepsHost(cfg, sh, entries, false);
    var n := |sh.hosts|;
    var grown := Learn(sh, entries, false);
    SameCandidate(start, offset, n, |grown.hosts|);
    var i, j := (start + offset) % n, (start + offset) % |grown.hosts|;
    assert grown.hosts[i] == sh.hosts[i];
    assert grown.hosts[i] == grown.hosts[j] <==> i == j;
  }

  lemma SameCandidate(start: nat, offset: nat, n: nat, m: nat)
    requires start < n <= m && 1 <= offset < n
    ensures (start + offset) % n < n && (start + offset) % m < m
    ensures (start + offset) % n == (start + offset) % m <==> m == n || start + offset < n
  {
    ModOnce(start + offset, n);
    ModOnce(start + offset, m);
  }
}
