/** Hosts added while a walk is under way: the walk keeps its bound and takes the new length as its
    modulus, and can pass hosts by. */
module Growing {
  import opened Wrappers
  import opened Protocol
  import opened HostSafety
  import Burst
  import Walks

  /** The index asked at `offset` by a walk from `start` over `n` hosts, when the list grew to `m` hosts
      while the candidate at offset `at` was asked. */
  function Candidate(start: nat, offset: nat, n: nat, m: nat, at: nat): nat
    requires 0 < n <= m
  {
    if offset <= at then (start + offset) % n else (start + offset) % m
  }

  /** A host that was there before, and is never asked. */
  predicate Skipped(x: nat, start: nat, n: nat, m: nat, at: nat)
    requires 0 < n <= m
  {
    x < n && x != start && forall offset :: 1 <= offset < n ==> Candidate(start, offset, n, m, at) != x
  }

  lemma LastIsSkipped(start: nat, n: nat, m: nat, at: nat)
    requires 0 < start < n < m && 1 <= at < n - 1
    ensures Skipped(start - 1, start, n, m, at)
  {
    forall offset | 1 <= offset < n
      ensures Candidate(start, offset, n, m, at) != start - 1
    {
      ModOnce(start + offset, n);
      ModOnce(start + offset, m);
    }
  }

  lemma NoneIsSkipped(x: nat, start: nat, n: nat, m: nat, at: nat)
    requires start < n < m && 1 <= at < n && (start == 0 || at == n - 1)
    ensures !Skipped(x, start, n, m, at)
  {
    if x < n && x != start {
      var offset := Burst.OffsetOf(start, x, n);
      ModOnce(start + offset, n);
      ModOnce(start + offset, m);
      assert Candidate(start, offset, n, m, at) == x;
    }
  }

  /** Adding hosts during a walk makes it pass by a host it had yet to ask exactly if the walk did not
      start from the first host and candidates were left. */
  lemma WhenHostsAreSkipped(start: nat, n: nat, m: nat, at: nat)
    requires start < n < m && 1 <= at < n
    ensures (exists x: nat :: Skipped(x, start, n, m, at)) <==> start > 0 && at < n - 1
  {
    if start > 0 && at < n - 1 {
      LastIsSkipped(start, n, m, at);
    } else {
      forall x: nat
        ensures !Skipped(x, start, n, m, at)
      {
        NoneIsSkipped(x, start, n, m, at);
      }
    }
  }

  /** The walk of a run asks these candidates: hosts are added in step `k`, while `t` asks at `at`, and the
      list then rests. */
  lemma GrownWalk(cfg: Config, r: Run, t: TaskId, i: nat, j: nat, k: nat, entries: seq<Entry>, m: nat, n: nat, at: nat)
    requires Walks.Stay(cfg, r, t, i, j) && i < k < m < j && r.acts[k] == LearnHosts(entries, false)
    requires Walks.ListRests(r, k, j) && n == |r.states[k].sh.hosts|
    requires t in r.states[k].tasks && r.states[k].tasks[t].pc.Walking? && at == r.states[k].tasks[t].pc.offset
    requires t in r.states[m].tasks && r.states[m].tasks[t].pc.Walking? && r.states[m].tasks[t].pc.offset > at
    ensures var grown := r.states[k + 1].sh.hosts;
      n <= |grown| && r.states[m].sh.index == Candidate(r.states[i].sh.index, r.states[m].tasks[t].pc.offset, n, |grown|, at)
  {
    GrowsOnce(cfg, r, t, i, j, k, entries);
    Walks.AskedRun(cfg, r, t, i, j, k, m);
  }

  lemma GrowsOnce(cfg: Config, r: Run, t: TaskId, i: nat, j: nat, k: nat, entries: seq<Entry>)
    requires Walks.Stay(cfg, r, t, i, j) && i < k < j - 1 && r.acts[k] == LearnHosts(entries, false)
    ensures |r.states[k].sh.hosts| <= |r.states[k + 1].sh.hosts|
    ensures Walks.AskedSince(r.states[k], r.states[k + 1], t, r.states[i].sh.index)
  {
    var st, a, after := r.states[k], r.acts[k], r.states[k + 1];
    Walks.StaysInside(cfg, r, t, i, j, k);
    Walks.AskedFirst(cfg, st, a, after, t, r.states[i].sh.index, Walks.CauseOf(r.states[i], t));
    LearnKeepsHost(cfg, st.sh, entries, false);
  }

  /** Task `t` has asked `h`. */
  ghost predicate Asked(log: seq<Event>, t: TaskId, h: Host) {
    exists k :: 0 <= k < |log| && log[k].Sent? && log[k].task == t && log[k].url == Base(h)
  }

  /** A step asks whom it sends to. */
  lemma StepAsks(cfg: Config, st: State, act: Action, t: TaskId, h: Host)
    requires Enabled(cfg, st, act) && !Asked(st.log, t, h)
    requires var after := Perform(cfg, st, act);
      ActsAs(act, t) && after.tasks[t].flight.Some? ==> after.tasks[t].flight.value.url != Base(h)
    ensures !Asked(Perform(cfg, st, act).log, t, h)
  {
    var after := Perform(cfg, st, act);
    forall k | 0 <= k < |after.log| && after.log[k].Sent? && after.log[k].task == t
      ensures after.log[k].url != Base(h)
    {
      if k < |st.log| {
        assert after.log[k] == st.log[k];
      }
    }
  }

  lemma FourHosts(a: Host, b: Host, c: Host, d: Host)
    requires NoDuplicates([a, b, c, d])
    ensures a != b && a != c && a != d && b != c && b != d && c != d
  {
    var four := [a, b, c, d];
    assert four[0] == a && four[1] == b && four[2] == c && four[3] == d;
  }

  /** So False does not mean that every host was asked: three hosts, a walk from the second, a fourth one
      added while the third is asked, and `failover` gives up without asking the first. */
  lemma FalseWithoutAskingAll(a: Host, b: Host, c: Host, d: Host) returns (r: Run)
    requires NoDuplicates([a, b, c, d]) && b != "" && c != "" && d != ""
    ensures IsInitialRun(Config(a, ApiToken), r) && IsCalm(r)
    ensures Last(r).sh.hosts == [a, b, c, d]
    ensures 1 in Last(r).tasks && Last(r).tasks[1].pc == Done(Switched(false))
    ensures !Asked(Last(r).log, 1, a)
  {
    var cfg := Config(a, ApiToken);
    FourHosts(a, b, c, d);
    var asking := AskingTheThird(a, b, c);
    assert Kept([a, b, c], [Named(d)]) == Kept([a, b, c] + [d], []);
    StepAsks(cfg, Last(asking), LearnHosts([Named(d)], false), 1, a);
    var grown := ProlongCalmly(cfg, asking, LearnHosts([Named(d)], false));
    assert Last(grown).sh.hosts == [a, b, c, d];
    r := PassesBy(cfg, grown, a, d);
  }

  lemma AskingTheThird(a: Host, b: Host, c: Host) returns (r: Run)
    requires a != b && a != c && b != c && b != "" && c != ""
    ensures IsInitialRun(Config(a, ApiToken), r) && IsCalm(r) && Last(r).sh.hosts == [a, b, c] && Last(r).sh.index == 2
    ensures AsksAs(Last(r), 1) && !Asked(Last(r).log, 1, a)
  {
    var cfg := Config(a, ApiToken);
    r := OnTheSecond(a, b, c);
    assert Perform(cfg, Last(r), Acquire(1)).tasks[1].pc == Walking(1, 1, 3, Consumer(None, false));
    StepAsks(cfg, Last(r), Acquire(1), 1, a);
    r := ProlongCalmly(cfg, r, Acquire(1));
  }

  /** Task 1 walks from the second host and asks at `offset`. */
  predicate AsksAs(st: State, offset: nat) {
    && 1 in st.tasks && st.tasks[1].pc == Walking(1, offset, 3, Consumer(None, false))
    && st.tasks[1].flight.Some? && st.tasks[1].flight.value.call.Probe?
  }

  lemma PassesBy(cfg: Config, grown: Run, a: Host, d: Host) returns (r: Run)
    requires IsInitialRun(cfg, grown) && IsCalm(grown) && a != d
    requires |Last(grown).sh.hosts| == 4 && Last(grown).sh.hosts[3] == d && Last(grown).sh.index == 2
    requires AsksAs(Last(grown), 1) && !Asked(Last(grown).log, 1, a)
    ensures IsInitialRun(cfg, r) && IsCalm(r) && Last(r).sh.hosts == Last(grown).sh.hosts
    ensures 1 in Last(r).tasks && Last(r).tasks[1].pc == Done(Switched(false)) && !Asked(Last(r).log, 1, a)
  {
    StepAsks(cfg, Last(grown), Deliver(1, Unreachable), 1, a);
    var next := ProlongCalmly(cfg, grown, Deliver(1, Unreachable));
    assert AsksAs(Last(next), 2) && Last(next).sh.index == 3;
    StepAsks(cfg, Last(next), Deliver(1, Unreachable), 1, a);
    r := ProlongCalmly(cfg, next, Deliver(1, Unreachable));
  }

  /** The client on the second of three hosts, and a consumer waiting to leave it. */
  lemma OnTheSecond(a: Host, b: Host, c: Host) returns (r: Run)
    requires a != b && a != c && b != c && b != "" && c != ""
    ensures IsInitialRun(Config(a, ApiToken), r) && IsCalm(r)
    ensures Last(r).sh == Shared([a, b, c], 1, Base(b), Base(b), "", "", 0.0) && Last(r).lock.None?
    ensures 1 in Last(r).tasks && Last(r).tasks[1].pc == WantSwitch(Consumer(None, false))
    ensures !Asked(Last(r).log, 1, a)
  {
    var cfg := Config(a, ApiToken);
    r := Walks.WalkOverThree(a, b, c);
    StepAsks(cfg, Last(r), Acquire(0), 1, a);
    r := ProlongCalmly(cfg, r, Acquire(0));
    assert Last(r).tasks[0].pc == Walking(0, 1, 3, Consumer(None, false)) && Last(r).sh.index == 1;
    StepAsks(cfg, Last(r), Deliver(0, Answered(200)), 1, a);
    r := ProlongCalmly(cfg, r, Deliver(0, Answered(200)));
    StepAsks(cfg, Last(r), CallFailover(1, None, false), 1, a);
    r := ProlongCalmly(cfg, r, CallFailover(1, None, false));
  }
}
