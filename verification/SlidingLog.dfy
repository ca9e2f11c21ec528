/** The gateway's per-server sliding-log rate limit and the policy evaluation that consults it. */
module SlidingLog {

  const WINDOW_MS := 1000

  /** `timestamps.filter((t) => t > now - 1000)`. */
  function Recent(log: seq<int>, now: int): seq<int> {
    if log == [] then []
    else
      var last := log[|log| - 1];
      var before := Recent(log[..|log| - 1], now);
      if last > now - WINDOW_MS then before + [last] else before
  }

  datatype Admission = Admission(log: seq<int>, admitted: bool)

  /** `checkRateLimit` on the log of one server; a refusal leaves the log as it was. */
  function Check(log: seq<int>, limit: int, now: int): Admission {
    var recent := Recent(log, now);
    if |recent| >= limit then Admission(log, false) else Admission(recent + [now], true)
  }

  datatype Decision = Allowed | Denied | RateLimited

  /** A call and the outcome of the checks around the rate limit. */
  datatype PolicyCall = PolicyCall(
    server: int, now: int, isFinancial: bool, isOAuth: bool, isFreeTier: bool, isAllowlisted: bool,
    passesToolPolicy: bool)
  {
    /** The checks made before the rate limit. */
    predicate Reaches() { !(isFinancial && !isOAuth) && !(isFinancial && isFreeTier) && isAllowlisted }
  }

  type Logs = map<int, seq<int>>

  function LogOf(logs: Logs, server: int): seq<int> { if server in logs then logs[server] else [] }

  datatype Verdict = Verdict(logs: Logs, decision: Decision)

  /** `evaluate`: only a call that passes the earlier checks is counted, and one that later checks deny
      stays counted. */
  function Evaluate(logs: Logs, limit: int, c: PolicyCall): Verdict {
    if !c.Reaches() then Verdict(logs, Denied) else
    var a := Check(LogOf(logs, c.server), limit, c.now);
    if !a.admitted then Verdict(logs, RateLimited)
    else Verdict(logs[c.server := a.log], if c.passesToolPolicy then Allowed else Denied)
  }

  class PolicyEngine {
    var requestTimestamps: Logs

    constructor ()
      ensures requestTimestamps == map[]
    {
      requestTimestamps := map[];
    }

    method CheckRateLimit(serverId: int, limitPerSecond: int, now: int) returns (admitted: bool)
      modifies this
      ensures var a := Check(LogOf(old(requestTimestamps), serverId), limitPerSecond, now);
              && admitted == a.admitted
              && requestTimestamps == if admitted then old(requestTimestamps)[serverId := a.log]
                  else old(requestTimestamps)
    {
      var timestamps := LogOf(requestTimestamps, serverId);
      var recent := Recent(timestamps, now);
      if |recent| >= limitPerSecond {
        return false;
      }
      requestTimestamps := requestTimestamps[serverId := recent + [now]];
      return true;
    }

    method EvaluateCall(c: PolicyCall, limit: int) returns (decision: Decision)
      modifies this
      ensures Verdict(requestTimestamps, decision) == Evaluate(old(requestTimestamps), limit, c)
    {
      if c.isFinancial && !c.isOAuth {
        return Denied;
      }
      if c.isFinancial && c.isFreeTier {
        return Denied;
      }
      if !c.isAllowlisted {
        return Denied;
      }
      var admitted := CheckRateLimit(c.server, limit, c.now);
      if !admitted {
        return RateLimited;
      }
      return if c.passesToolPolicy then Allowed else Denied;
    }
  }

  // ----- runs -----

  datatype PolicyRun = PolicyRun(logs: Logs, decisions: seq<Decision>)

  function Run(calls: seq<PolicyCall>, limit: int): (r: PolicyRun)
    ensures |r.decisions| == |calls|
  {
    if calls == [] then PolicyRun(map[], [])
    else
      var before := Run(calls[..|calls| - 1], limit);
      var v := Evaluate(before.logs, limit, calls[|calls| - 1]);
      PolicyRun(v.logs, before.decisions + [v.decision])
  }

  /** The last of `calls` is admitted by the log of `server`. */
  predicate LastCounts(calls: seq<PolicyCall>, limit: int, server: int)
    requires calls != []
  {
    var c := calls[|calls| - 1];
    c.server == server && c.Reaches() &&
        Check(LogOf(Run(calls[..|calls| - 1], limit).logs, server), limit, c.now).admitted
  }

  /** Every time at which a call to `server` was admitted, nothing forgotten. */
  function AdmittedTimes(calls: seq<PolicyCall>, limit: int, server: int): seq<int> {
    if calls == [] then []
    else
      var before := AdmittedTimes(calls[..|calls| - 1], limit, server);
      if LastCounts(calls, limit, server) then before + [calls[|calls| - 1].now] else before
  }

  /** How many of the calls to `server` in (w - 1000, w] were allowed. */
  function AllowedIn(calls: seq<PolicyCall>, limit: int, server: int, w: int): nat {
    if calls == [] then 0
    else
      var c := calls[|calls| - 1];
      var allowed := c.server == server && w - 1000 < c.now <= w &&
          Run(calls, limit).decisions[|calls| - 1] == Allowed;
      AllowedIn(calls[..|calls| - 1], limit, server, w) + if allowed then 1 else 0
  }

  predicate ClockNeverBack(calls: seq<PolicyCall>) {
    forall i, j :: 0 <= i < j < |calls| ==> calls[i].now <= calls[j].now
  }

  predicate Sorted(times: seq<int>) { forall i, j :: 0 <= i < j < |times| ==> times[i] <= times[j] }

  function CountIn(times: seq<int>, w: int): nat {
    if times == [] then 0
    else
      var last := times[|times| - 1];
      CountIn(times[..|times| - 1], w) + if w - 1000 < last <= w then 1 else 0
  }

  // ----- the log forgets nothing that still counts -----

  lemma RecentAppend(log: seq<int>, t: int, now: int)
    ensures Recent(log + [t], now) == if t > now - WINDOW_MS then Recent(log, now) + [t] else Recent(log, now)
  {
    assert (log + [t])[..|log|] == log;
  }

  lemma {:induction false} RecentOfRecent(log: seq<int>, earlier: int, later: int)
    requires earlier <= later
    ensures Recent(Recent(log, earlier), later) == Recent(log, later)
  {
    if log != [] {
      var init, last := log[..|log| - 1], log[|log| - 1];
      RecentOfRecent(init, earlier, later);
      if last > earlier - WINDOW_MS {
        RecentAppend(Recent(init, earlier), last, later);
      } else {
        assert Recent(log, earlier) == Recent(init, earlier);
      }
    }
  }

  /** What the last call does to the log of one server. */
  lemma LastStep(calls: seq<PolicyCall>, limit: int, server: int)
    requires calls != []
    ensures var c := calls[|calls| - 1];
            var before := LogOf(Run(calls[..|calls| - 1], limit).logs, server);
            LogOf(Run(calls, limit).logs, server)
              == if LastCounts(calls, limit, server) then Recent(before, c.now) + [c.now] else before
  {}

  /** The bounded log and the full list of admissions have the same recent part from now on. */
  lemma {:induction false} LogKeepsRecent(calls: seq<PolicyCall>, limit: int, server: int, now: int)
    requires ClockNeverBack(calls) && (calls != [] ==> calls[|calls| - 1].now <= now)
    ensures Recent(LogOf(Run(calls, limit).logs, server), now) == Recent(AdmittedTimes(calls, limit, server), now)
    decreases |calls|
  {
    if calls != [] {
      var init, c := calls[..|calls| - 1], calls[|calls| - 1];
      LogKeepsRecent(init, limit, server, now);
      LastStep(calls, limit, server);
      if LastCounts(calls, limit, server) {
        var log := LogOf(Run(init, limit).logs, server);
        RecentOfRecent(log, c.now, now);
        RecentAppend(Recent(log, c.now), c.now, now);
        RecentAppend(AdmittedTimes(init, limit, server), c.now, now);
      }
    }
  }

  lemma {:induction false} AdmittedAreSorted(calls: seq<PolicyCall>, limit: int, server: int)
    requires ClockNeverBack(calls)
    ensures var times := AdmittedTimes(calls, limit, server);
            Sorted(times) && forall i :: 0 <= i < |times| ==> calls != [] && times[i] <= calls[|calls| - 1].now
    decreases |calls|
  {
    if calls != [] {
      AdmittedAreSorted(calls[..|calls| - 1], limit, server);
    }
  }

  // ----- the bound -----

  lemma {:induction false} RecentShrinks(times: seq<int>, earlier: int, later: int)
    requires earlier <= later
    ensures |Recent(times, later)| <= |Recent(times, earlier)|
  {
    if times != [] { RecentShrinks(times[..|times| - 1], earlier, later); }
  }

  lemma {:induction false} CountIsRecent(times: seq<int>, w: int)
    requires forall i :: 0 <= i < |times| ==> times[i] <= w
    ensures CountIn(times, w) == |Recent(times, w)|
  {
    if times != [] { CountIsRecent(times[..|times| - 1], w); }
  }

  /** In any window (w - 1000, w], however placed, at most `limit` calls are admitted. */
  lemma {:induction false} AdmissionsAreBounded(calls: seq<PolicyCall>, limit: int, server: int, w: int)
    requires ClockNeverBack(calls)
    ensures CountIn(AdmittedTimes(calls, limit, server), w) <= if limit > 0 then limit else 0
    decreases |calls|
  {
    if calls != [] {
      var init, c := calls[..|calls| - 1], calls[|calls| - 1];
      AdmissionsAreBounded(init, limit, server, w);
      var before, after := AdmittedTimes(init, limit, server), AdmittedTimes(calls, limit, server);
      if after != before && c.now <= w {
        LogKeepsRecent(init, limit, server, c.now);
        AdmittedAreSorted(calls, limit, server);
        RecentAppend(before, c.now, c.now);
        CountIsRecent(after, w);
        RecentShrinks(after, c.now, w);
      } else if after != before {
        assert after[..|after| - 1] == before;
      }
    }
  }

  /** Only an admitted call is allowed. */
  lemma AllowedCounts(calls: seq<PolicyCall>, limit: int)
    requires calls != [] && Run(calls, limit).decisions[|calls| - 1] == Allowed
    ensures LastCounts(calls, limit, calls[|calls| - 1].server)
  {}

  lemma CountAppend(times: seq<int>, t: int, w: int)
    ensures CountIn(times + [t], w) == CountIn(times, w) + if w - 1000 < t <= w then 1 else 0
  {
    assert (times + [t])[..|times|] == times;
  }

  lemma {:induction false} AllowedAreAdmitted(calls: seq<PolicyCall>, limit: int, server: int, w: int)
    ensures AllowedIn(calls, limit, server, w) <= CountIn(AdmittedTimes(calls, limit, server), w)
    decreases |calls|
  {
    if calls != [] {
      var init, c := calls[..|calls| - 1], calls[|calls| - 1];
      AllowedAreAdmitted(init, limit, server, w);
      CountAppend(AdmittedTimes(init, limit, server), c.now, w);
      if Run(calls, limit).decisions[|calls| - 1] == Allowed {
        AllowedCounts(calls, limit);
      }
    }
  }

  /** The promise of the limit: no window of a second, wherever it starts, holds more allowed calls to
      one server than the limit, although the log forgets what it no longer needs. */
  lemma AllowedCallsAreBounded(calls: seq<PolicyCall>, limit: int, server: int, w: int)
    requires ClockNeverBack(calls)
    ensures AllowedIn(calls, limit, server, w) <= if limit > 0 then limit else 0
  {
    AllowedAreAdmitted(calls, limit, server, w);
    AdmissionsAreBounded(calls, limit, server, w);
  }

  function CallsTo(calls: seq<PolicyCall>, server: int): seq<PolicyCall> {
    if calls == [] then []
    else
      var c := calls[|calls| - 1];
      var before := CallsTo(calls[..|calls| - 1], server);
      if c.server == server then before + [c] else before
  }

  /** A call that reaches the limit is admitted exactly when fewer than `limit` admissions to its server
      fall in the second that ends with it. */
  lemma AdmittedIffBelowLimit(calls: seq<PolicyCall>, limit: int)
    requires ClockNeverBack(calls) && calls != [] && calls[|calls| - 1].Reaches()
    ensures var init, c := calls[..|calls| - 1], calls[|calls| - 1];
            Run(calls, limit).decisions[|calls| - 1] != RateLimited <==>
              CountIn(AdmittedTimes(init, limit, c.server), c.now) < limit
  {
    var init, c := calls[..|calls| - 1], calls[|calls| - 1];
    LogKeepsRecent(init, limit, c.server, c.now);
    AdmittedAreSorted(init, limit, c.server);
    CountIsRecent(AdmittedTimes(init, limit, c.server), c.now);
  }

  /** The earlier checks let the call through: a financial server wants OAuth and a paid tier, and the tool must be
      allowed. */
  predicate IsLetThrough(c: PolicyCall) {
    (c.isFinancial ==> c.isOAuth && !c.isFreeTier) && c.isAllowlisted
  }

  /** In every run: a call is denied without being counted when an earlier check stops it, rate limited when its server
      admitted `limit` calls in the second that ends with it, and else decided by the policy of its tool. */
  lemma DecisionIs(calls: seq<PolicyCall>, limit: int)
    requires ClockNeverBack(calls) && calls != []
    ensures var n := |calls| - 1;
            var init, c := calls[..n], calls[n];
            Run(calls, limit).decisions[n] ==
              if !IsLetThrough(c) then Denied
              else if CountIn(AdmittedTimes(init, limit, c.server), c.now) >= limit then RateLimited
              else if c.passesToolPolicy then Allowed else Denied
    ensures var n := |calls| - 1;
            !IsLetThrough(calls[n]) ==> Run(calls, limit).logs == Run(calls[..n], limit).logs
  {
    if calls[|calls| - 1].Reaches() { AdmittedIffBelowLimit(calls, limit); }
  }

  /** Calls to other servers never use up a server's limit: its log follows its own calls alone. */
  lemma {:induction false} ServersAreIndependent(calls: seq<PolicyCall>, limit: int, server: int)
    ensures LogOf(Run(calls, limit).logs, server) == LogOf(Run(CallsTo(calls, server), limit).logs, server)
    decreases |calls|
  {
    if calls != [] {
      var init, c := calls[..|calls| - 1], calls[|calls| - 1];
      ServersAreIndependent(init, limit, server);
      LastStep(calls, limit, server);
      if c.server == server {
        var own := CallsTo(init, server);
        assert CallsTo(calls, server) == own + [c];
        assert (own + [c])[..|own|] == own;
        LastStep(own + [c], limit, server);
      }
    }
  }
}
