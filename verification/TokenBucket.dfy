/** The Redis token bucket (sdk/go/gateway/redislimit/limiter.go) and the Retry-After header that reports its
    rejections (sdk/go/gateway/response.go). Tokens are reals, times are integer milliseconds. */
module TokenBucket {
  import opened Optional
  import opened Results

  /** The two fields of the bucket hash; a missing key has neither. */
  datatype Stored = Stored(tokens: Option<real>, updatedAt: Option<int>)

  datatype Limit = Limit(rate: real, burst: int)

  datatype Decision = Decision(allowed: bool, tokens: real, retryMs: int)

  const EMPTY := Stored(None, None)

  ghost predicate Sane(l: Limit) { l.rate > 0.0 && l.burst >= 1 }

  function Ceiling(x: real): (n: int)
    ensures x <= n as real < x + 1.0
  {
    -((-x).Floor)
  }

  function Seconds(ms: int): real { ms as real / 1000.0 }

  function Forward(from: int, to: int): int { if to > from then to - from else 0 }

  /** What the bucket earns in n milliseconds. */
  function Earn(n: int, l: Limit): real { Seconds(n) * l.rate }

  /** The milliseconds it takes to earn what is missing, rounded up. */
  function RetryMs(missing: real, l: Limit): int
    requires l.rate > 0.0
  {
    Ceiling(missing / l.rate * 1000.0)
  }

  /** The tokens a call at `now` finds. */
  function Refilled(s: Stored, now: int, l: Limit): real {
    if s.tokens.None? || s.updatedAt.None? then l.burst as real
    else
      var t := s.tokens.value + Earn(Forward(s.updatedAt.value, now), l);
      if t < l.burst as real then t else l.burst as real
  }

  function Decide(tokens: real, l: Limit): Decision
    requires l.rate > 0.0
  {
    if tokens >= 1.0 then Decision(true, tokens - 1.0, 0)
    else Decision(false, tokens, RetryMs(1.0 - tokens, l))
  }

  function Take(s: Stored, now: int, l: Limit): (Stored, Decision)
    requires l.rate > 0.0
  {
    var d := Decide(Refilled(s, now, l), l);
    (Stored(Some(d.tokens), Some(now)), d)
  }

  lemma EarnNothing(l: Limit)
    ensures Earn(0, l) == 0.0
  {
    assert Seconds(0) == 0.0;
  }

  /** The bucket key: HSET of both fields, then PEXPIRE. */
  class Bucket {
    var stored: Stored
    var deadline: Option<int>

    constructor ()
      ensures stored == EMPTY && deadline == None
    {
      stored, deadline := EMPTY, None;
    }

    method Run(now: int, l: Limit, ttl: int) returns (d: Decision)
      requires l.rate > 0.0
      modifies this
      ensures (stored, d) == Take(old(stored), now, l)
      ensures deadline == Some(now + ttl)
    {
      hide Earn, RetryMs;
      EarnNothing(l);
      var tokens, updatedAt := l.burst as real, now;
      if stored.tokens.Some? && stored.updatedAt.Some? {
        tokens, updatedAt := stored.tokens.value, stored.updatedAt.value;
      }
      var elapsed := if now - updatedAt > 0 then now - updatedAt else 0;
      tokens := tokens + Earn(elapsed, l);
      if tokens > l.burst as real { tokens := l.burst as real; }
      var allowed, retry := false, 0;
      if tokens >= 1.0 {
        allowed := true;
        tokens := tokens - 1.0;
      } else {
        retry := RetryMs(1.0 - tokens, l);
      }
      stored := Stored(Some(tokens), Some(now));
      deadline := Some(now + ttl);
      d := Decision(allowed, tokens, retry);
    }
  }

  // ----- arithmetic -----

  lemma Scale(a: real, b: real, c: real)
    requires a <= b && c >= 0.0
    ensures a * c <= b * c
  {
  }

  lemma Share(a: real, c: real)
    requires c > 0.0
    ensures a / c * c == a
  {
  }

  lemma RefillGrows(n: int, l: Limit)
    requires n >= 0 && Sane(l)
    ensures Earn(n, l) >= 0.0
  {
    Scale(0.0, Seconds(n), l.rate);
  }

  lemma SecondsAdd(a: int, b: int, l: Limit)
    ensures Earn(a + b, l) == Earn(a, l) + Earn(b, l)
  {
    assert Seconds(a + b) == Seconds(a) + Seconds(b);
    assert (Seconds(a) + Seconds(b)) * l.rate == Seconds(a) * l.rate + Seconds(b) * l.rate;
  }

  lemma Cancel(a: real, b: real, c: real)
    requires c > 0.0
    ensures a * c <= b * c <==> a <= b
  {
    if a > b {
      assert (a - b) * c > 0.0;
    }
  }

  lemma CeilingAtMost(x: real, n: int)
    ensures Ceiling(x) <= n <==> x <= n as real
  {
  }

  /** Waiting the returned milliseconds is just enough to earn what is missing. */
  lemma EarnedWhen(missing: real, n: int, l: Limit)
    requires Sane(l)
    ensures RetryMs(missing, l) <= n <==> missing <= Earn(n, l)
  {
    var share := missing / l.rate;
    Share(missing, l.rate);
    Cancel(share, Seconds(n), l.rate);
    CeilingAtMost(share * 1000.0, n);
  }

  // ----- the stored tokens stay in range, and admissions are conserved -----

  ghost predicate InRange(s: Stored, l: Limit) {
    s.tokens.Some? ==> 0.0 <= s.tokens.value <= l.burst as real
  }

  lemma TakeKeepsRange(s: Stored, now: int, l: Limit)
    requires Sane(l) && InRange(s, l)
    ensures InRange(Take(s, now, l).0, l)
    ensures 0.0 <= Refilled(s, now, l) <= l.burst as real
  {
    hide Earn, RetryMs;
    if s.tokens.Some? && s.updatedAt.Some? {
      RefillGrows(Forward(s.updatedAt.value, now), l);
    }
  }

  function After(s: Stored, times: seq<int>, l: Limit): Stored
    requires l.rate > 0.0
    decreases |times|
  {
    if times == [] then s else After(Take(s, times[0], l).0, times[1..], l)
  }

  function Decisions(s: Stored, times: seq<int>, l: Limit): (d: seq<Decision>)
    requires l.rate > 0.0
    ensures |d| == |times|
    decreases |times|
  {
    if times == [] then [] else [Take(s, times[0], l).1] + Decisions(Take(s, times[0], l).0, times[1..], l)
  }

  function Admitted(decisions: seq<Decision>): nat {
    if decisions == [] then 0 else (if decisions[0].allowed then 1 else 0) + Admitted(decisions[1..])
  }

  /** The sum of the clock's forward steps. */
  function ForwardSteps(times: seq<int>): nat {
    if |times| <= 1 then 0 else Forward(times[0], times[1]) + ForwardSteps(times[1..])
  }

  lemma {:induction false} RangeHolds(s: Stored, times: seq<int>, l: Limit)
    requires Sane(l) && InRange(s, l)
    ensures InRange(After(s, times, l), l)
    decreases |times|
  {
    hide Earn, RetryMs;
    if times != [] {
      TakeKeepsRange(s, times[0], l);
      RangeHolds(Take(s, times[0], l).0, times[1..], l);
    }
  }

  /** Tokens left plus calls admitted never exceed what the first call found plus what was earned since. */
  lemma {:induction false} Account(s: Stored, times: seq<int>, l: Limit)
    requires Sane(l) && InRange(s, l) && times != []
    ensures Admitted(Decisions(s, times, l)) as real + After(s, times, l).tokens.GetOr(0.0)
            <= Refilled(s, times[0], l) + Earn(ForwardSteps(times), l)
    decreases |times|
  {
    hide Earn, RetryMs;
    var s' := Take(s, times[0], l).0;
    TakeKeepsRange(s, times[0], l);
    var all := Decisions(s, times, l);
    assert all[1..] == Decisions(s', times[1..], l);
    if |times| == 1 {
      assert After(s', times[1..], l) == s';
      assert Admitted(all[1..]) == 0;
      RefillGrows(0, l);
    } else {
      Account(s', times[1..], l);
      SecondsAdd(Forward(times[0], times[1]), ForwardSteps(times[1..]), l);
    }
  }

  /** What a call at `now` loses to the cap. */
  function Spilt(s: Stored, now: int, l: Limit): real {
    if s.tokens.None? || s.updatedAt.None? then 0.0
    else
      var over := s.tokens.value + Earn(Forward(s.updatedAt.value, now), l) - l.burst as real;
      if over > 0.0 then over else 0.0
  }

  /** What all calls of a run after its first lose to the cap. */
  function Discarded(s: Stored, times: seq<int>, l: Limit): real
    requires l.rate > 0.0
    decreases |times|
  {
    if |times| <= 1 then 0.0
    else
      var s' := After(s, times[..1], l);
      Spilt(s', times[1], l) + Discarded(s', times[1..], l)
  }

  lemma SpiltIsPositive(s: Stored, now: int, l: Limit)
    ensures Spilt(s, now, l) >= 0.0
  {
  }

  lemma FirstStored(s: Stored, times: seq<int>, l: Limit)
    requires l.rate > 0.0 && times != []
    ensures After(s, times[..1], l) == Take(s, times[0], l).0
  {
    assert times[..1][0] == times[0] && times[..1][1..] == [];
    assert After(Take(s, times[0], l).0, [], l) == Take(s, times[0], l).0;
  }

  /** Conservation, exactly: calls admitted plus tokens left are what the first call found plus what was earned
      since, less only what the cap discarded. No token is lost in any other way, and none comes from elsewhere. */
  lemma {:induction false} ExactAccount(s: Stored, times: seq<int>, l: Limit)
    requires Sane(l) && times != []
    ensures After(s, times, l).tokens.Some?
    ensures Admitted(Decisions(s, times, l)) as real + After(s, times, l).tokens.value
         == Refilled(s, times[0], l) + Earn(ForwardSteps(times), l) - Discarded(s, times, l)
    decreases |times|
  {
    hide Earn, RetryMs;
    var s' := Take(s, times[0], l).0;
    var all := Decisions(s, times, l);
    assert all[1..] == Decisions(s', times[1..], l);
    if |times| == 1 {
      assert After(s', times[1..], l) == s';
      assert Admitted(all[1..]) == 0;
      EarnNothing(l);
    } else {
      FirstStored(s, times, l);
      ExactAccount(s', times[1..], l);
      SecondsAdd(Forward(times[0], times[1]), ForwardSteps(times[1..]), l);
    }
  }

  lemma {:induction false} RefusedLeavesLittle(s: Stored, times: seq<int>, l: Limit)
    requires l.rate > 0.0 && times != [] && !Decisions(s, times, l)[|times| - 1].allowed
    ensures After(s, times, l).tokens.Some? && After(s, times, l).tokens.value < 1.0
    decreases |times|
  {
    hide Earn, RetryMs, Refilled;
    var s' := Take(s, times[0], l).0;
    if |times| == 1 {
      assert After(s', times[1..], l) == s';
    } else {
      assert Decisions(s, times, l)[|times| - 1] == Decisions(s', times[1..], l)[|times| - 2];
      RefusedLeavesLittle(s', times[1..], l);
    }
  }

  /** A call is refused only when all that was found and earned has been used up or discarded: what the calls
      before it were given leaves less than one token. */
  lemma RefusedWhenSpent(s: Stored, times: seq<int>, l: Limit)
    requires Sane(l) && times != [] && !Decisions(s, times, l)[|times| - 1].allowed
    ensures Admitted(Decisions(s, times, l)) as real
          > Refilled(s, times[0], l) + Earn(ForwardSteps(times), l) - Discarded(s, times, l) - 1.0
  {
    ExactAccount(s, times, l);
    RefusedLeavesLittle(s, times, l);
  }

  /** n calls at one instant. */
  function AtOnce(now: int, n: nat): (times: seq<int>)
    ensures |times| == n && forall i :: 0 <= i < n ==> times[i] == now
  {
    seq(n, i => now)
  }

  lemma {:induction false} AtOnceAdmits(s: Stored, now: int, n: nat, found: nat, l: Limit)
    requires Sane(l) && Refilled(s, now, l) == found as real && found <= l.burst
    ensures Admitted(Decisions(s, AtOnce(now, n), l)) == if n <= found then n else found
    decreases n
  {
    hide Earn, RetryMs;
    if n > 0 {
      var times := AtOnce(now, n);
      assert times[1..] == AtOnce(now, n - 1);
      var s' := Take(s, now, l).0;
      EarnNothing(l);
      assert Decisions(s, times, l)[1..] == Decisions(s', times[1..], l);
      AtOnceAdmits(s', now, n - 1, if found >= 1 then found - 1 else 0, l);
    }
  }

  /** Of any n calls at one instant on a full bucket exactly the first burst are admitted. */
  lemma BurstAtOnce(now: int, n: nat, l: Limit)
    requires Sane(l)
    ensures Admitted(Decisions(EMPTY, AtOnce(now, n), l)) == if n <= l.burst then n else l.burst
  {
    AtOnceAdmits(EMPTY, now, n, l.burst, l);
  }

  /** The rate is per second. */
  lemma EarnedInASecond(l: Limit)
    ensures Earn(1000, l) == l.rate
  {
    assert Seconds(1000) == 1.0;
  }

  lemma {:induction false} SplitRun(s: Stored, times: seq<int>, i: nat, l: Limit)
    requires l.rate > 0.0 && i <= |times|
    ensures Decisions(s, times, l)[i..] == Decisions(After(s, times[..i], l), times[i..], l)
    decreases |times|
  {
    if i > 0 {
      SplitRun(Take(s, times[0], l).0, times[1..], i - 1, l);
      assert times[1..][..i - 1] == times[..i][1..] && times[1..][i - 1..] == times[i..];
      assert Decisions(s, times, l)[i..] == Decisions(s, times, l)[1..][i - 1..];
    }
  }

  lemma {:induction false} PrefixRun(s: Stored, times: seq<int>, j: nat, l: Limit)
    requires l.rate > 0.0 && j <= |times|
    ensures Decisions(s, times, l)[..j] == Decisions(s, times[..j], l)
    decreases |times|
  {
    if j > 0 {
      PrefixRun(Take(s, times[0], l).0, times[1..], j - 1, l);
      assert times[..j][1..] == times[1..][..j - 1];
    }
  }

  /** Conservation: in any window of any run, at most burst plus rate times the forward clock steps are admitted. */
  lemma WindowBound(s: Stored, times: seq<int>, i: nat, j: nat, l: Limit)
    requires Sane(l) && InRange(s, l) && i <= j <= |times|
    ensures Admitted(Decisions(s, times, l)[i..j]) as real <= l.burst as real + Earn(ForwardSteps(times[i..j]), l)
  {
    hide Earn, RetryMs;
    if i < j {
      var start := After(s, times[..i], l);
      RangeHolds(s, times[..i], l);
      SplitRun(s, times, i, l);
      PrefixRun(start, times[i..], j - i, l);
      assert Decisions(s, times, l)[i..j] == Decisions(s, times, l)[i..][..j - i];
      assert times[i..][..j - i] == times[i..j];
      Account(start, times[i..j], l);
      TakeKeepsRange(start, times[i], l);
      RangeHolds(start, times[i..j], l);
    } else {
      assert Decisions(s, times, l)[i..j] == [];
      RefillGrows(0, l);
    }
  }

  predicate Monotone(times: seq<int>) {
    forall i, j :: 0 <= i < j < |times| ==> times[i] <= times[j]
  }

  /** For a clock that never steps back the forward steps add up to the length of the window. */
  lemma {:induction false} MonotoneSteps(times: seq<int>)
    requires Monotone(times) && times != []
    ensures ForwardSteps(times) == times[|times| - 1] - times[0]
  {
    if |times| > 1 { MonotoneSteps(times[1..]); }
  }

  lemma MonotoneWindow(times: seq<int>, i: nat, j: nat)
    requires Monotone(times) && i < j <= |times|
    ensures ForwardSteps(times[i..j]) == times[j - 1] - times[i]
  {
    var window := times[i..j];
    assert forall k :: 0 <= k < |window| ==> window[k] == times[i + k];
    MonotoneSteps(window);
  }

  /** With a monotone clock, in any window of any run at most burst plus rate times the window's length is admitted. */
  lemma MonotoneBound(s: Stored, times: seq<int>, i: nat, j: nat, l: Limit)
    requires Sane(l) && InRange(s, l) && Monotone(times) && i < j <= |times|
    ensures Admitted(Decisions(s, times, l)[i..j]) as real <= l.burst as real + Earn(times[j - 1] - times[i], l)
  {
    hide Earn, Decisions, InRange, Monotone;
    WindowBound(s, times, i, j, l);
    MonotoneWindow(times, i, j);
  }

  /** The bound by length for the window of these times that a run enters in the stored state s. */
  ghost predicate LengthBounds(s: Stored, times: seq<int>, i: nat, j: nat, l: Limit)
    requires l.rate > 0.0 && i < j <= |times|
  {
    Admitted(Decisions(s, times[i..j], l)) as real <= l.burst as real + Earn(times[j - 1] - times[i], l)
  }

  ghost predicate LengthAlwaysBounds(times: seq<int>) {
    forall s, l, i: nat, j: nat :: Sane(l) && InRange(s, l) && i < j <= |times| ==> LengthBounds(s, times, i, j, l)
  }

  /** Two calls, the second before the first: a full bucket lets one through, against a bound below one. */
  lemma StepBackExceeds(times: seq<int>, k: nat)
    requires k + 1 < |times| && times[k] > times[k + 1]
    ensures !LengthBounds(EMPTY, times, k, k + 2, Limit(1.0, 1))
  {
    hide RetryMs;
    var l, window := Limit(1.0, 1), times[k..k + 2];
    assert window[0] == times[k];
    assert Decisions(EMPTY, window, l)[0].allowed;
    assert Admitted(Decisions(EMPTY, window, l)) >= 1;
    assert Earn(times[k + 1] - times[k], l) < 0.0;
  }

  lemma {:induction false} StepsBack(times: seq<int>, i: nat, j: nat) returns (k: nat)
    requires i < j < |times| && times[i] > times[j]
    ensures k + 1 < |times| && times[k] > times[k + 1]
    decreases j
  {
    if times[j - 1] > times[j] { k := j - 1; } else { k := StepsBack(times, i, j - 1); }
  }

  /** Burst plus rate times the length bounds the admissions of every window, whatever the limit and whatever the
      bucket holds when the window begins, if and only if the clock never steps back. */
  lemma LengthBoundsIffMonotone(times: seq<int>)
    ensures LengthAlwaysBounds(times) <==> Monotone(times)
  {
    hide Earn, Decisions;
    if Monotone(times) {
      forall s, l, i: nat, j: nat | Sane(l) && InRange(s, l) && i < j <= |times| ensures LengthBounds(s, times, i, j, l) {
        MonotoneWindow(times, i, j);
        WindowBound(s, times[i..j], 0, j - i, l);
        var d := Decisions(s, times[i..j], l);
        assert d[0..j - i] == d && times[i..j][0..j - i] == times[i..j];
      }
    } else {
      var i: nat, j: nat :| i < j < |times| && times[i] > times[j];
      var k := StepsBack(times, i, j);
      StepBackExceeds(times, k);
      assert Sane(Limit(1.0, 1)) && InRange(EMPTY, Limit(1.0, 1));
    }
  }

  lemma EarnUnit()
    ensures Earn(0, Limit(1.0, 1)) == 0.0 && Earn(1000, Limit(1.0, 1)) == 1.0
  {
    assert Seconds(0) == 0.0 && Seconds(1000) == 1.0;
  }

  lemma StepBackRun(l: Limit, s1: Stored, s2: Stored)
    requires l == Limit(1.0, 1) && Earn(0, l) == 0.0 && Earn(1000, l) == 1.0
    requires s1 == Stored(Some(0.0), Some(0)) && s2 == Stored(Some(0.0), Some(-1000))
    ensures Admitted(Decisions(EMPTY, [0, -1000, 0], l)) == 2
  {
    hide Earn, RetryMs;
    assert Take(EMPTY, 0, l).0 == s1 && Take(EMPTY, 0, l).1.allowed;
    assert Take(s1, -1000, l).0 == s2 && !Take(s1, -1000, l).1.allowed;
    assert Take(s2, 0, l).1.allowed;
    assert [0, -1000, 0][1..] == [-1000, 0] && [-1000, 0][1..] == [0];
    var last := Decisions(s2, [0], l);
    var middle := Decisions(s1, [-1000, 0], l);
    assert Admitted(last) == 1;
    assert middle[1..] == last && Admitted(middle) == 1;
    assert Decisions(EMPTY, [0, -1000, 0], l)[1..] == middle;
  }

  /** The excess is not only in windows of negative length: from one token and no time at all between the first
      call and the last, two are admitted. */
  lemma StepBackAdmitsMore()
    ensures var times, l := [0, -1000, 0], Limit(1.0, 1);
            Admitted(Decisions(EMPTY, times, l)) == 2 && l.burst + (times[2] - times[0]) == 1
  {
    var l := Limit(1.0, 1);
    EarnUnit();
    StepBackRun(l, Stored(Some(0.0), Some(0)), Stored(Some(0.0), Some(-1000)));
  }

  // ----- the retry time -----

  /** A stored rejection: too few tokens at the time of the call. */
  ghost predicate Refused(s: Stored, at: int) {
    s.tokens.Some? && s.updatedAt == Some(at) && s.tokens.value < 1.0
  }

  /** A rejected poll leaves every later refill as it would have been without the poll. */
  lemma PollIsNeutral(s: Stored, at: int, poll: int, later: int, l: Limit)
    requires Sane(l) && Refused(s, at) && at <= poll <= later
    requires !Take(s, poll, l).1.allowed
    ensures Refilled(Take(s, poll, l).0, later, l) == Refilled(s, later, l)
    ensures Refused(Take(s, poll, l).0, poll)
  {
    hide Earn, RetryMs;
    SecondsAdd(poll - at, later - poll, l);
    RefillGrows(later - poll, l);
  }

  /** Rejected polling never delays admission. */
  lemma {:induction false} PollingIsNeutral(s: Stored, at: int, polls: seq<int>, later: int, l: Limit)
    requires Sane(l) && Refused(s, at)
    requires Monotone([at] + polls + [later])
    requires forall i :: 0 <= i < |polls| ==> !Decisions(s, polls, l)[i].allowed
    ensures Refilled(After(s, polls, l), later, l) == Refilled(s, later, l)
    decreases |polls|
  {
    hide Earn, RetryMs;
    if polls != [] {
      var whole := [at] + polls + [later];
      assert whole[0] == at && whole[1] == polls[0] && whole[|polls| + 1] == later;
      var s' := Take(s, polls[0], l).0;
      assert Decisions(s, polls, l)[0] == Take(s, polls[0], l).1;
      PollIsNeutral(s, at, polls[0], later, l);
      assert [polls[0]] + polls[1..] + [later] == whole[1..];
      forall i | 0 <= i < |polls[1..]| ensures !Decisions(s', polls[1..], l)[i].allowed {
        assert Decisions(s, polls, l)[i + 1] == Decisions(s', polls[1..], l)[i];
      }
      PollingIsNeutral(s', polls[0], polls[1..], later, l);
    }
  }

  /** The case without polls. */
  lemma RetryAlone(s: Stored, at: int, later: int, l: Limit)
    requires Sane(l) && Refused(s, at) && at <= later
    ensures Refilled(s, later, l) >= 1.0 <==> later >= at + RetryMs(1.0 - s.tokens.value, l)
  {
    EarnedWhen(1.0 - s.tokens.value, later - at, l);
    hide Earn, RetryMs;
  }

  /** The retry time is exact: after a rejection, with nothing but rejected calls in between, a call is
      admitted if and only if at least the returned milliseconds have passed. */
  lemma RetryIsExact(s: Stored, at: int, polls: seq<int>, later: int, l: Limit)
    requires Sane(l) && !Take(s, at, l).1.allowed
    requires Monotone([at] + polls + [later])
    requires forall i :: 0 <= i < |polls| ==> !Decisions(Take(s, at, l).0, polls, l)[i].allowed
    ensures Take(After(Take(s, at, l).0, polls, l), later, l).1.allowed <==> later >= at + Take(s, at, l).1.retryMs
  {
    hide Earn, RetryMs, Refilled;
    var s' := Take(s, at, l).0;
    PollingIsNeutral(s', at, polls, later, l);
    var whole := [at] + polls + [later];
    assert whole[0] == at && whole[|polls| + 1] == later;
    RetryAlone(s', at, later, l);
  }

  // ----- the lifetime of the key -----

  const MAX_INT64 := 9223372036854775807
  const NANOS := 1_000_000_000
  const NANOS_PER_MILLI := 1_000_000

  function LifetimeSeconds(l: Limit): real
    requires l.rate > 0.0
  {
    var double := 2.0 * l.burst as real / l.rate;
    if double > 1.0 then double else 1.0
  }

  /** New: the rate and burst checks, and the key's lifetime in whole milliseconds. */
  function New(l: Limit): Result<int> {
    if l.rate <= 0.0 || l.burst <= 0 then Err
    else if LifetimeSeconds(l) > MAX_INT64 as real / NANOS as real then Err
    else Ok((LifetimeSeconds(l) * NANOS as real).Floor / NANOS_PER_MILLI)
  }

  lemma FloorOfFloor(x: real)
    requires x >= 0.0
    ensures ((x * NANOS as real).Floor / NANOS_PER_MILLI) as real > x * 1000.0 - 1.0
  {
    var n := (x * NANOS as real).Floor;
    var q := n / NANOS_PER_MILLI;
    assert n < q * NANOS_PER_MILLI + NANOS_PER_MILLI;
    assert x * NANOS as real < (n + 1) as real;
    assert n + 1 <= (q + 1) * NANOS_PER_MILLI;
    assert x * NANOS as real < ((q + 1) * NANOS_PER_MILLI) as real;
  }

  lemma NeedIsHalfLife(l: Limit)
    requires Sane(l)
    ensures 2.0 * (l.burst as real / l.rate) <= LifetimeSeconds(l)
  {
    var double, need := 2.0 * l.burst as real / l.rate, l.burst as real / l.rate;
    Share(2.0 * l.burst as real, l.rate);
    Share(l.burst as real, l.rate);
    Cancel(2.0 * need, double, l.rate);
  }

  lemma LifetimeCovers(life: real, need: real, ttl: int)
    requires life >= 1.0 && 2.0 * need <= life && ttl as real > life * 1000.0 - 1.0
    ensures ttl >= 1 && Seconds(ttl) >= need
  {
  }

  /** Over the lifetime of the key an empty bucket fills up completely. */
  lemma LifetimeRefills(l: Limit)
    requires New(l).Ok?
    ensures Sane(l) && New(l).value >= 1 && Earn(New(l).value, l) >= l.burst as real
  {
    var need := l.burst as real / l.rate;
    Share(l.burst as real, l.rate);
    NeedIsHalfLife(l);
    FloorOfFloor(LifetimeSeconds(l));
    LifetimeCovers(LifetimeSeconds(l), need, New(l).value);
    Scale(need, Seconds(New(l).value), l.rate);
  }

  /** The key is kept no longer than the larger of a second and twice the time a full refill takes. */
  lemma LifetimeIsShort(l: Limit)
    requires New(l).Ok?
    ensures Seconds(New(l).value) <= 1.0 || Seconds(New(l).value) * l.rate <= 2.0 * l.burst as real
  {
    var life := LifetimeSeconds(l);
    var n := (life * NANOS as real).Floor;
    assert (n / NANOS_PER_MILLI) * NANOS_PER_MILLI <= n;
    assert ((n / NANOS_PER_MILLI) * NANOS_PER_MILLI) as real <= life * NANOS as real;
    assert Seconds(New(l).value) <= life;
    if life > 1.0 {
      Share(2.0 * l.burst as real, l.rate);
      Scale(Seconds(New(l).value), life, l.rate);
    }
  }

  /** A call in a run where Redis may have dropped the key first, if its deadline had passed. */
  datatype Arrival = Arrival(at: int, dropped: bool)

  datatype Keyed = Keyed(stored: Stored, deadline: int)

  function Drop(k: Keyed, a: Arrival): Stored {
    if a.dropped && k.deadline <= a.at then EMPTY else k.stored
  }

  /** Once its deadline has passed, a dropped key reads as missing; before, the drop cannot happen. */
  lemma DropForgets(k: Keyed, a: Arrival)
    ensures a.at >= k.deadline && a.dropped ==> Drop(k, a).tokens.None?
    ensures a.at < k.deadline || !a.dropped ==> Drop(k, a) == k.stored
  {
  }

  function DecisionsWithExpiry(k: Keyed, arrivals: seq<Arrival>, l: Limit, ttl: int): seq<Decision>
    requires l.rate > 0.0
    decreases |arrivals|
  {
    if arrivals == [] then []
    else
      var (s', d) := Take(Drop(k, arrivals[0]), arrivals[0].at, l);
      [d] + DecisionsWithExpiry(Keyed(s', arrivals[0].at + ttl), arrivals[1..], l, ttl)
  }

  function Times(arrivals: seq<Arrival>): (times: seq<int>)
    ensures |times| == |arrivals|
    ensures forall i :: 0 <= i < |times| ==> times[i] == arrivals[i].at
  {
    seq(|arrivals|, i requires 0 <= i < |arrivals| => arrivals[i].at)
  }

  /** The key was last written at `last`, and its deadline is a lifetime away. */
  ghost predicate WrittenAt(k: Keyed, last: int, l: Limit, ttl: int) {
    InRange(k.stored, l) && k.stored.tokens.Some? && k.stored.updatedAt == Some(last) && k.deadline == last + ttl
  }

  lemma DroppedWasFull(k: Keyed, last: int, now: int, l: Limit)
    requires New(l).Ok? && WrittenAt(k, last, l, New(l).value) && now >= k.deadline
    ensures Refilled(k.stored, now, l) == l.burst as real
  {
    hide Earn, RetryMs;
    LifetimeRefills(l);
    var ttl := New(l).value;
    SecondsAdd(ttl, now - last - ttl, l);
    RefillGrows(now - last - ttl, l);
  }

  /** With one clock that never steps back, whether and when Redis drops an expired key is unobservable. */
  lemma {:induction false} ExpiryIsUnobservable(k: Keyed, last: int, arrivals: seq<Arrival>, l: Limit)
    requires New(l).Ok?
    requires k.stored == EMPTY || WrittenAt(k, last, l, New(l).value)
    requires Monotone(Times(arrivals))
    ensures DecisionsWithExpiry(k, arrivals, l, New(l).value) == Decisions(k.stored, Times(arrivals), l)
    decreases |arrivals|
  {
    hide Earn, RetryMs;
    if arrivals != [] {
      var a, ttl := arrivals[0], New(l).value;
      LifetimeRefills(l);
      if a.dropped && k.deadline <= a.at && k.stored != EMPTY {
        DroppedWasFull(k, last, a.at, l);
      }
      var s := Take(k.stored, a.at, l).0;
      assert Take(Drop(k, a), a.at, l) == Take(k.stored, a.at, l);
      TakeKeepsRange(k.stored, a.at, l);
      assert Times(arrivals)[1..] == Times(arrivals[1..]);
      ExpiryIsUnobservable(Keyed(s, a.at + ttl), a.at, arrivals[1..], l);
    }
  }

  // ----- from the script's reply to the Retry-After header -----

  datatype RateLimitDecision = RateLimitDecision(allowed: bool, remaining: int, retryAfter: int)

  /** parseDecision: the reply as integers and a real; the retry time becomes a duration in nanoseconds. */
  function ParseDecision(allowed: int, remaining: real, retryMs: int): Result<RateLimitDecision> {
    if allowed != 0 && allowed != 1 then Err
    else if remaining < 0.0 then Err
    else if retryMs < 0 || retryMs > MAX_INT64 / NANOS_PER_MILLI then Err
    else Ok(RateLimitDecision(allowed == 1, remaining.Floor, retryMs * NANOS_PER_MILLI))
  }

  function Parsed(d: Decision): Result<RateLimitDecision> {
    ParseDecision(if d.allowed then 1 else 0, d.tokens, d.retryMs)
  }

  lemma ShareBounds(missing: real, l: Limit)
    requires Sane(l) && 0.0 < missing <= 1.0
    ensures 0.0 < missing / l.rate <= l.burst as real / l.rate
  {
    var share, need := missing / l.rate, l.burst as real / l.rate;
    Share(missing, l.rate);
    Share(l.burst as real, l.rate);
    Cancel(share, need, l.rate);
    Cancel(share, 0.0, l.rate);
  }

  lemma SharesFit(share: real, need: real, life: real)
    requires 0.0 < share <= need && 2.0 * need <= life <= MAX_INT64 as real / NANOS as real
    ensures 1 <= Ceiling(share * 1000.0) <= MAX_INT64 / NANOS_PER_MILLI
  {
    CeilingAtMost(share * 1000.0, MAX_INT64 / NANOS_PER_MILLI);
    CeilingAtMost(share * 1000.0, 0);
  }

  lemma RetryMsFits(missing: real, l: Limit)
    requires New(l).Ok? && 0.0 < missing <= 1.0
    ensures 1 <= RetryMs(missing, l) <= MAX_INT64 / NANOS_PER_MILLI
  {
    var share, need := missing / l.rate, l.burst as real / l.rate;
    ShareBounds(missing, l);
    NeedIsHalfLife(l);
    SharesFit(share, need, LifetimeSeconds(l));
  }

  lemma RetryFits(s: Stored, now: int, l: Limit)
    requires New(l).Ok? && InRange(s, l)
    ensures 0 <= Take(s, now, l).1.retryMs <= MAX_INT64 / NANOS_PER_MILLI
    ensures !Take(s, now, l).1.allowed ==> Take(s, now, l).1.retryMs >= 1
  {
    hide Earn, RetryMs;
    TakeKeepsRange(s, now, l);
    var d := Take(s, now, l).1;
    if !d.allowed { RetryMsFits(1.0 - d.tokens, l); }
  }

  /** parseDecision accepts every reply of the script, and keeps its meaning. */
  lemma EveryReplyParses(s: Stored, now: int, l: Limit)
    requires New(l).Ok? && InRange(s, l)
    ensures var d := Take(s, now, l).1;
            && Parsed(d).Ok? && Parsed(d).value.allowed == d.allowed
            && 0 <= Parsed(d).value.remaining <= l.burst
            && Parsed(d).value.remaining as real <= d.tokens < Parsed(d).value.remaining as real + 1.0
            && Parsed(d).value.retryAfter == d.retryMs * NANOS_PER_MILLI <= MAX_INT64
  {
    RetryFits(s, now, l);
    TakeKeepsRange(s, now, l);
  }

  /** The header of protocolErrorResponder.Respond: whole seconds, rounded up, or no header at all. */
  method RetryAfterHeader(retryAfter: int) returns (header: Option<int>)
    requires retryAfter <= MAX_INT64
    ensures header.None? <==> retryAfter <= 0
    ensures header.Some? ==> (header.value - 1) * NANOS < retryAfter <= header.value * NANOS
    ensures header.Some? ==> 1 <= header.value <= MAX_INT64
  {
    if retryAfter <= 0 { return None; }
    var seconds := retryAfter / NANOS;
    if retryAfter % NANOS != 0 {
      seconds := seconds + 1;
    }
    return Some(seconds);
  }

  lemma PositiveRate(l: Limit)
    requires New(l).Ok?
    ensures Sane(l)
  {
  }

  /** Waiting the whole seconds of the header always suffices, whatever rejected calls come in between. */
  lemma HeaderSuffices(s: Stored, at: int, polls: seq<int>, later: int, l: Limit, d: RateLimitDecision, seconds: int)
    requires New(l).Ok? && InRange(s, l) && Parsed(Take(s, at, l).1) == Ok(d) && !d.allowed
    requires Monotone([at] + polls + [later])
    requires forall i :: 0 <= i < |polls| ==> !Decisions(Take(s, at, l).0, polls, l)[i].allowed
    requires (seconds - 1) * NANOS < d.retryAfter <= seconds * NANOS
    requires later >= at + seconds * 1000
    ensures Take(After(Take(s, at, l).0, polls, l), later, l).1.allowed
  {
    hide Earn, RetryMs, Refilled, New, After, Decisions;
    EveryReplyParses(s, at, l);
    PositiveRate(l);
    RetryIsExact(s, at, polls, later, l);
    assert Take(s, at, l).1.retryMs * NANOS_PER_MILLI <= seconds * 1000 * NANOS_PER_MILLI;
  }
}
