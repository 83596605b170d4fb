/** The REST transport's per-IP limiter: a log of admissions pruned to the last minute,
    against the same limiter keeping its complete admission history. */
module SlidingWindow {

  const MINUTE := 60.0

  type Log = seq<real>

  function Get(m: map<string, Log>, ip: string): Log {
    if ip in m then m[ip] else []
  }

  /** The admissions strictly later than a minute before `now`. */
  function Recent(log: Log, now: real): Log {
    if log == [] then [] else
    var last := log[|log| - 1];
    Recent(log[..|log| - 1], now) + if last > now - MINUTE then [last] else []
  }

  datatype Call = Call(ip: string, now: real)

  /** allow, as the code does it: prune the stored log, compare its length, append. */
  function Pruning(limit: int, requests: map<string, Log>, c: Call): (map<string, Log>, bool) {
    var pruned := if c.ip in requests then requests[c.ip := Recent(requests[c.ip], c.now)] else requests;
    if |Get(pruned, c.ip)| >= limit then (pruned, false)
    else (pruned[c.ip := Get(pruned, c.ip) + [c.now]], true)
  }

  class RateLimiter {
    var requests: map<string, Log>
    const limit: int

    constructor (limit: int)
      ensures requests == map[] && this.limit == limit
    {
      requests := map[];
      this.limit := limit;
    }

    method Allow(ip: string, now: real) returns (ok: bool)
      modifies this
      ensures (requests, ok) == Pruning(limit, old(requests), Call(ip, now))
    {
      var minute := now - MINUTE;
      if ip in requests {
        var reqs := requests[ip];
        var valid: Log := [];
        for k := 0 to |reqs|
          invariant valid == Recent(reqs[..k], now)
        {
          assert reqs[..k + 1][..k] == reqs[..k];
          if reqs[k] > minute {
            valid := valid + [reqs[k]];
          }
        }
        assert reqs[..|reqs|] == reqs;
        requests := requests[ip := valid];
      }
      var n := if ip in requests then |requests[ip]| else 0;
      if n >= limit {
        return false;
      }
      requests := requests[ip := (if ip in requests then requests[ip] else []) + [now]];
      return true;
    }
  }

  /** The reference: every admission is remembered, and when each IP last called. */
  datatype History = History(admitted: map<string, Log>, last: map<string, real>)

  function Remembering(limit: int, h: History, c: Call): (History, bool) {
    var h' := h.(last := h.last[c.ip := c.now]);
    if |Recent(Get(h.admitted, c.ip), c.now)| >= limit then (h', false)
    else (h'.(admitted := h.admitted[c.ip := Get(h.admitted, c.ip) + [c.now]]), true)
  }

  function Verdicts(limit: int, requests: map<string, Log>, calls: seq<Call>): seq<bool>
    decreases |calls|
  {
    if calls == [] then [] else
    var (next, ok) := Pruning(limit, requests, calls[0]);
    [ok] + Verdicts(limit, next, calls[1..])
  }

  function Requests(limit: int, requests: map<string, Log>, calls: seq<Call>): map<string, Log>
    decreases |calls|
  {
    if calls == [] then requests else Requests(limit, Pruning(limit, requests, calls[0]).0, calls[1..])
  }

  function ReferenceVerdicts(limit: int, h: History, calls: seq<Call>): seq<bool>
    decreases |calls|
  {
    if calls == [] then [] else
    var (next, ok) := Remembering(limit, h, calls[0]);
    [ok] + ReferenceVerdicts(limit, next, calls[1..])
  }

  function Remembered(limit: int, h: History, calls: seq<Call>): History
    decreases |calls|
  {
    if calls == [] then h else Remembered(limit, Remembering(limit, h, calls[0]).0, calls[1..])
  }

  const BLANK := History(map[], map[])

  ghost predicate MonotoneFrom(now: real, calls: seq<Call>)
    decreases |calls|
  {
    calls == [] || (now <= calls[0].now && MonotoneFrom(calls[0].now, calls[1..]))
  }

  // ---------------------------------------------------------------------------------------
  // The pruned log refines the complete history
  // ---------------------------------------------------------------------------------------

  /** What is stored for an IP is its history as it looked at its own last call. */
  ghost predicate RefinesAt(requests: map<string, Log>, h: History, now: real, ip: string) {
    if ip in h.last then h.last[ip] <= now && Get(requests, ip) == Recent(Get(h.admitted, ip), h.last[ip])
    else ip !in requests && ip !in h.admitted
  }

  ghost predicate Refines(requests: map<string, Log>, h: History, now: real) {
    forall ip :: RefinesAt(requests, h, now, ip)
  }

  lemma {:induction false} RecentOfRecent(log: Log, earlier: real, now: real)
    requires earlier <= now
    ensures Recent(Recent(log, earlier), now) == Recent(log, now)
  {
    if log != [] {
      var init, last := log[..|log| - 1], log[|log| - 1];
      RecentOfRecent(init, earlier, now);
      if last > earlier - MINUTE {
        assert (Recent(init, earlier) + [last])[..|Recent(init, earlier)|] == Recent(init, earlier);
      } else {
        assert Recent(log, earlier) == Recent(init, earlier);
      }
    }
  }

  lemma RecentOfAppend(log: Log, t: real, now: real)
    ensures Recent(log + [t], now) == Recent(log, now) + if t > now - MINUTE then [t] else []
  {
    assert (log + [t])[..|log|] == log;
  }

  lemma CallerRefines(limit: int, requests: map<string, Log>, h: History, now: real, c: Call)
    requires RefinesAt(requests, h, now, c.ip) && now <= c.now
    ensures Pruning(limit, requests, c).1 == Remembering(limit, h, c).1
    ensures RefinesAt(Pruning(limit, requests, c).0, Remembering(limit, h, c).0, c.now, c.ip)
  {
    var log := Get(h.admitted, c.ip);
    if c.ip in h.last {
      RecentOfRecent(log, h.last[c.ip], c.now);
    }
    RecentOfAppend(log, c.now, c.now);
  }

  lemma OtherRefines(limit: int, requests: map<string, Log>, h: History, now: real, c: Call, ip: string)
    requires RefinesAt(requests, h, now, ip) && now <= c.now && ip != c.ip
    ensures RefinesAt(Pruning(limit, requests, c).0, Remembering(limit, h, c).0, c.now, ip)
  {}

  lemma StepRefines(limit: int, requests: map<string, Log>, h: History, now: real, c: Call)
    requires Refines(requests, h, now) && now <= c.now
    ensures Pruning(limit, requests, c).1 == Remembering(limit, h, c).1
    ensures Refines(Pruning(limit, requests, c).0, Remembering(limit, h, c).0, c.now)
  {
    assert RefinesAt(requests, h, now, c.ip);
    CallerRefines(limit, requests, h, now, c);
    forall ip ensures RefinesAt(Pruning(limit, requests, c).0, Remembering(limit, h, c).0, c.now, ip) {
      if ip != c.ip {
        assert RefinesAt(requests, h, now, ip);
        OtherRefines(limit, requests, h, now, c, ip);
      }
    }
  }

  /** The main refinement: under a monotone clock the pruned limiter admits and rejects like the
      one with the complete history, and what it stores for every IP that has called is that
      history filtered to the minute before the IP's last call. */
  lemma {:induction false} PrunedRefinesHistory(limit: int, requests: map<string, Log>, h: History,
                                                now: real, calls: seq<Call>)
    requires Refines(requests, h, now) && MonotoneFrom(now, calls)
    ensures Verdicts(limit, requests, calls) == ReferenceVerdicts(limit, h, calls)
    ensures var end := Remembered(limit, h, calls);
            forall ip :: ip in end.last ==>
              Get(Requests(limit, requests, calls), ip) == Recent(Get(end.admitted, ip), end.last[ip])
    decreases |calls|
  {
    if calls != [] {
      StepRefines(limit, requests, h, now, calls[0]);
      PrunedRefinesHistory(limit, Pruning(limit, requests, calls[0]).0,
                           Remembering(limit, h, calls[0]).0, calls[0].now, calls[1..]);
    } else {
      forall ip | ip in h.last ensures Get(requests, ip) == Recent(Get(h.admitted, ip), h.last[ip]) {
        assert RefinesAt(requests, h, now, ip);
      }
    }
  }

  // ---------------------------------------------------------------------------------------
  // At most `limit` admissions in every window of a minute
  // ---------------------------------------------------------------------------------------

  /** The admissions in the window (end - 60s, end]. */
  function InWindow(log: Log, end: real): nat {
    if log == [] then 0 else
    var last := log[|log| - 1];
    InWindow(log[..|log| - 1], end) + if end - 60.0 < last <= end then 1 else 0
  }

  function Cap(limit: int): nat { if limit >= 0 then limit else 0 }

  ghost predicate Capped(limit: int, admitted: map<string, Log>) {
    forall ip, end :: InWindow(Get(admitted, ip), end) <= Cap(limit)
  }

  lemma {:induction false} WindowWithinRecent(log: Log, now: real, end: real)
    requires now <= end
    ensures InWindow(log, end) <= |Recent(log, now)|
  {
    if log != [] {
      WindowWithinRecent(log[..|log| - 1], now, end);
    }
  }

  lemma AdmissionKeepsCap(limit: int, h: History, c: Call)
    requires Capped(limit, h.admitted)
    ensures Capped(limit, Remembering(limit, h, c).0.admitted)
  {
    var log := Get(h.admitted, c.ip);
    var h' := Remembering(limit, h, c).0;
    forall ip, end ensures InWindow(Get(h'.admitted, ip), end) <= Cap(limit) {
      assert InWindow(Get(h.admitted, ip), end) <= Cap(limit);
      if ip == c.ip && Remembering(limit, h, c).1 {
        assert (log + [c.now])[..|log|] == log;
        if c.now <= end {
          WindowWithinRecent(log, c.now, end);
        }
      }
    }
  }

  lemma {:induction false} HistoryCapped(limit: int, h: History, calls: seq<Call>)
    requires Capped(limit, h.admitted)
    ensures Capped(limit, Remembered(limit, h, calls).admitted)
    decreases |calls|
  {
    if calls != [] {
      AdmissionKeepsCap(limit, h, calls[0]);
      HistoryCapped(limit, Remembering(limit, h, calls[0]).0, calls[1..]);
    }
  }

  /** The instants at which `ip` was admitted, read off the calls and their verdicts. */
  function Admissions(calls: seq<Call>, verdicts: seq<bool>, ip: string): Log
    requires |calls| == |verdicts|
  {
    if calls == [] then [] else
    (if calls[0].ip == ip && verdicts[0] then [calls[0].now] else []) +
    Admissions(calls[1..], verdicts[1..], ip)
  }

  lemma {:induction false} HistoryIsAdmissions(limit: int, h: History, calls: seq<Call>, ip: string)
    ensures |ReferenceVerdicts(limit, h, calls)| == |calls|
    ensures Get(Remembered(limit, h, calls).admitted, ip)
            == Get(h.admitted, ip) + Admissions(calls, ReferenceVerdicts(limit, h, calls), ip)
    decreases |calls|
  {
    if calls != [] {
      var (next, ok) := Remembering(limit, h, calls[0]);
      HistoryIsAdmissions(limit, next, calls[1..], ip);
      assert ReferenceVerdicts(limit, h, calls)[1..] == ReferenceVerdicts(limit, next, calls[1..]);
    }
  }

  /** A fresh limiter under a monotone clock: no window (end - 60s, end] of any IP's admissions
      holds more than `limit`. */
  lemma WindowNeverExceedsLimit(limit: int, now: real, calls: seq<Call>, ip: string, end: real)
    requires MonotoneFrom(now, calls)
    ensures |Verdicts(limit, map[], calls)| == |calls|
    ensures InWindow(Admissions(calls, Verdicts(limit, map[], calls), ip), end) <= Cap(limit)
  {
    PrunedRefinesHistory(limit, map[], BLANK, now, calls);
    HistoryIsAdmissions(limit, BLANK, calls, ip);
    HistoryCapped(limit, BLANK, calls);
    assert Get(BLANK.admitted, ip) + Admissions(calls, Verdicts(limit, map[], calls), ip)
           == Admissions(calls, Verdicts(limit, map[], calls), ip);
  }

  // ---------------------------------------------------------------------------------------
  // Exactly which requests are admitted
  // ---------------------------------------------------------------------------------------

  lemma {:induction false} OneMoreVerdict(limit: int, h: History, calls: seq<Call>, c: Call)
    ensures ReferenceVerdicts(limit, h, calls + [c])
            == ReferenceVerdicts(limit, h, calls) + [Remembering(limit, Remembered(limit, h, calls), c).1]
    decreases |calls|
  {
    if calls == [] {
      assert calls + [c] == [c] && [c][1..] == [];
    } else {
      assert (calls + [c])[1..] == calls[1..] + [c];
      OneMoreVerdict(limit, Remembering(limit, h, calls[0]).0, calls[1..], c);
    }
  }

  lemma {:induction false} MonotonePrefix(now: real, calls: seq<Call>, c: Call)
    requires MonotoneFrom(now, calls + [c])
    ensures MonotoneFrom(now, calls) && now <= c.now && forall k :: 0 <= k < |calls| ==> calls[k].now <= c.now
    decreases |calls|
  {
    if calls == [] {
      assert calls + [c] == [c];
    } else {
      assert (calls + [c])[1..] == calls[1..] + [c];
      MonotonePrefix(calls[0].now, calls[1..], c);
    }
  }

  lemma {:induction false} AdmissionsBefore(calls: seq<Call>, verdicts: seq<bool>, ip: string, end: real)
    requires |calls| == |verdicts| && forall k :: 0 <= k < |calls| ==> calls[k].now <= end
    ensures forall k :: 0 <= k < |Admissions(calls, verdicts, ip)| ==> Admissions(calls, verdicts, ip)[k] <= end
  {
    if calls != [] {
      AdmissionsBefore(calls[1..], verdicts[1..], ip, end);
    }
  }

  lemma {:induction false} RecentIsWindow(log: Log, now: real)
    requires forall k :: 0 <= k < |log| ==> log[k] <= now
    ensures |Recent(log, now)| == InWindow(log, now)
  {
    if log != [] {
      RecentIsWindow(log[..|log| - 1], now);
    }
  }

  /** Under a monotone clock a request is admitted if and only if fewer than `limit` of its IP's
      requests were admitted in the sixty seconds up to it. */
  lemma AdmittedIff(limit: int, now: real, calls: seq<Call>, c: Call)
    requires MonotoneFrom(now, calls + [c])
    ensures |Verdicts(limit, map[], calls)| == |calls|
    ensures Verdicts(limit, map[], calls + [c]) ==
            Verdicts(limit, map[], calls)
            + [InWindow(Admissions(calls, Verdicts(limit, map[], calls), c.ip), c.now) < limit]
  {
    MonotonePrefix(now, calls, c);
    PrunedRefinesHistory(limit, map[], BLANK, now, calls);
    PrunedRefinesHistory(limit, map[], BLANK, now, calls + [c]);
    OneMoreVerdict(limit, BLANK, calls, c);
    HistoryIsAdmissions(limit, BLANK, calls, c.ip);
    var log := Get(Remembered(limit, BLANK, calls).admitted, c.ip);
    var admissions := Admissions(calls, ReferenceVerdicts(limit, BLANK, calls), c.ip);
    assert log == Get(BLANK.admitted, c.ip) + admissions && Get(BLANK.admitted, c.ip) == [];
    assert log == admissions;
    AdmissionsBefore(calls, ReferenceVerdicts(limit, BLANK, calls), c.ip, c.now);
    RecentIsWindow(log, c.now);
  }
}
