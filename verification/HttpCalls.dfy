/** One call's own loop as it runs, against arbitrary answers of the network and of the session:
    sdk/frontend/src/http/retry/policy.ts, auth/request.ts (recover), client/client.ts and sse/client.ts. */
module HttpCalls {
  import opened Optional
  import opened AuthProtocol

  // ----- retry/policy.ts -----

  datatype ErrorKind = Network | Timeout | Status(code: int) | OtherKind

  /** The Retry-After header: how far ahead it points, in milliseconds, if it can be read. */
  datatype After = NoHeader | Ahead(ms: real) | Unreadable

  datatype HttpError = HttpError(kind: ErrorKind, after: After)

  datatype Policy = Policy(maxRetries: nat, baseDelayMs: real, maxDelayMs: real)

  /** retryable, or else whether the method is GET or HEAD; the call's own maxRetries, or else the policy's. */
  datatype Demand = Demand(retryable: Option<bool>, safeMethod: bool, maxRetries: Option<nat>)

  predicate ProperPolicy(p: Policy) { p.baseDelayMs >= 0.0 && p.maxDelayMs >= 0.0 }

  function Limit(d: Demand, p: Policy): nat { if d.maxRetries.Some? then d.maxRetries.value else p.maxRetries }

  predicate Allowed(d: Demand) { if d.retryable.Some? then d.retryable.value else d.safeMethod }

  predicate Transient(k: ErrorKind) {
    k.Network? || k.Timeout? || (k.Status? && k.code in {408, 429, 502, 503, 504})
  }

  /** What the server asks to wait at least. */
  function Minimum(a: After): real {
    if a.Ahead? && a.ms > 0.0 then a.ms else 0.0
  }

  function Doubled(n: nat): real {
    if n == 0 then 1.0 else 2.0 * Doubled(n - 1)
  }

  function Min(a: real, b: real): real { if a <= b then a else b }

  function Ceiling(p: Policy, used: nat): real {
    Min(p.maxDelayMs, p.baseDelayMs * Doubled(if used <= 30 then used else 30))
  }

  /** Full jitter below the ceiling. */
  function Jitter(random: real, ceiling: real): real { random * ceiling }

  /** retryDelay; random is what Math.random() returned. */
  function RetryDelay(e: HttpError, d: Demand, used: nat, p: Policy, random: real): Option<real> {
    if !Allowed(d) || used >= Limit(d, p) || !Transient(e.kind) then None
    else
      var minimum := Minimum(e.after);
      if e.after != NoHeader && minimum > p.maxDelayMs then None
      else
        var backoff := Jitter(random, Ceiling(p, used));
        Some(if minimum >= backoff then minimum else backoff)
  }

  lemma {:induction false} DoubledGrows(n: nat, m: nat)
    requires n <= m
    ensures 1.0 <= Doubled(n) <= Doubled(m)
  {
    if n < m { DoubledGrows(n, m - 1); } else if n > 0 { DoubledGrows(n - 1, n - 1); }
  }

  lemma ScaleBound(random: real, ceiling: real)
    requires 0.0 <= random < 1.0 && 0.0 <= ceiling
    ensures 0.0 <= Jitter(random, ceiling) <= ceiling
  {
    assert random * ceiling <= 1.0 * ceiling;
  }

  lemma CeilingBounds(p: Policy, used: nat)
    requires ProperPolicy(p)
    ensures 0.0 <= Ceiling(p, used) <= p.maxDelayMs
    ensures Ceiling(p, used) <= Ceiling(p, used + 1)
  {
    var n := if used <= 30 then used else 30;
    var m := if used + 1 <= 30 then used + 1 else 30;
    DoubledGrows(n, m);
    assert 0.0 <= p.baseDelayMs * Doubled(n) <= p.baseDelayMs * Doubled(m);
  }

  /** The backoff starts at the base delay and doubles with each of the first thirty retries, up to the longest
      delay. */
  lemma CeilingDoubles(p: Policy, used: nat)
    requires ProperPolicy(p)
    ensures Ceiling(p, 0) == Min(p.baseDelayMs, p.maxDelayMs)
    ensures Ceiling(p, used + 1) == if used < 30 then Min(2.0 * Ceiling(p, used), p.maxDelayMs) else Ceiling(p, used)
  {
    assert Doubled(0) == 1.0 && p.baseDelayMs * 1.0 == p.baseDelayMs;
    if used < 30 {
      var double := Doubled(used);
      assert Doubled(used + 1) == 2.0 * double;
      hide Doubled;
      assert p.baseDelayMs * (2.0 * double) == 2.0 * (p.baseDelayMs * double);
    }
  }

  /** A retry happens exactly when the call allows it, credit is left, the failure is transient and the server
      does not ask for more than the longest delay; the wait then is at least what the server asks, at most the
      longest delay, and no longer than the server asks or the doubling backoff reaches. */
  lemma DelayIsBounded(e: HttpError, d: Demand, used: nat, p: Policy, random: real)
    requires ProperPolicy(p) && 0.0 <= random < 1.0
    ensures var r := RetryDelay(e, d, used, p, random);
            && (r.Some? <==>
                  && (d.retryable == Some(true) || (d.retryable == None && d.safeMethod))
                  && used < d.maxRetries.GetOr(p.maxRetries)
                  && e.kind in {Network, Timeout, Status(408), Status(429), Status(502), Status(503), Status(504)}
                  && (e.after.Ahead? ==> e.after.ms <= p.maxDelayMs))
            && (r.Some? ==>
                  && Minimum(e.after) <= r.value <= p.maxDelayMs
                  && (r.value == Minimum(e.after) || r.value <= Ceiling(p, used)))
  {
    hide Ceiling, Jitter;
    CeilingBounds(p, used);
    ScaleBound(random, Ceiling(p, used));
  }

  lemma Fraction(ms: real, ceiling: real) returns (random: real)
    requires 0.0 <= ms < ceiling
    ensures 0.0 <= random < 1.0 && Jitter(random, ceiling) == ms
  {
    random := ms / ceiling;
  }

  /** And every such wait occurs: with a suitable random number, each from what the server asks to below the
      ceiling. */
  lemma EveryDelayOccurs(e: HttpError, d: Demand, used: nat, p: Policy, ms: real)
    requires ProperPolicy(p) && RetryDelay(e, d, used, p, 0.0).Some?
    requires 0.0 <= ms < Ceiling(p, used)
    ensures exists random: real :: 0.0 <= random < 1.0
              && RetryDelay(e, d, used, p, random) == Some(if Minimum(e.after) >= ms then Minimum(e.after) else ms)
  {
    hide Ceiling, Allowed, Limit, Transient, Jitter;
    var random := Fraction(ms, Ceiling(p, used));
    assert RetryDelay(e, d, used, p, random) == Some(if Minimum(e.after) >= ms then Minimum(e.after) else ms);
  }

  // ----- auth/request.ts -----

  /** How the shared refresh and notification end for this request; Stopped stands for a session change or a
      cancellation noticed on the way. */
  datatype Session = Session(verdict: Verdict, refreshed: Outcome, stopped: bool)

  datatype Recovery = Again | Not | Raised

  class RequestAuth {
    const mayRecover: bool
    var recovered: bool

    constructor (mayRecover: bool)
      ensures this.mayRecover == mayRecover && !recovered
    {
      this.mayRecover := mayRecover;
      recovered := false;
    }

    /** recover(error): another attempt is granted at most once. */
    method Recover(w: Session) returns (r: Recovery)
      modifies this
      ensures recovered == (old(recovered) || (!w.stopped && mayRecover && w.verdict == AuthProtocol.Recover))
      ensures r == Again <==> !old(recovered) && recovered && w.refreshed == Renewed
      ensures r == Not <==> !w.stopped && (!mayRecover || w.verdict == Keep)
    {
      if w.stopped { return Raised; }
      if !mayRecover { return Not; }
      if w.verdict == Throw { return Raised; }
      if w.verdict == Keep { return Not; }
      if !recovered {
        recovered := true;
        if w.refreshed == Renewed { return Again; }
      }
      return Raised;
    }
  }

  // ----- the request loops -----

  /** The outcome of one attempt; session and random are used only where the code comes to need them. A session
      change or a cancellation may stop the attempt before it is sent, or before its response is taken. */
  datatype Attempt =
    | NotSent
    | Interrupted
    | Success
    | Failure(transport: bool, error: HttpError, session: Session, random: real)

  datatype CallResult = CallResult(ok: bool, sends: nat, waits: seq<real>)

  /** How the loop goes on after an attempt. */
  datatype Move = Finish(ok: bool) | Resend | RetryAfter(ms: real)

  function MoveOn(d: Demand, p: Policy, mayRecover: bool, a: Attempt, retries: nat, recovered: bool): Move {
    if !a.Failure? then Finish(a.Success?)
    else if a.session.stopped || (mayRecover && a.session.verdict == Throw) then Finish(false)
    else if mayRecover && a.session.verdict == AuthProtocol.Recover then
      if !recovered && a.session.refreshed == Renewed then Resend else Finish(false)
    else
      var delay := if a.transport then RetryDelay(a.error, d, retries, p, a.random) else None;
      if delay.Some? then RetryAfter(delay.value) else Finish(false)
  }

  function Waited(waits: seq<real>, r: CallResult): CallResult { r.(waits := waits + r.waits) }

  lemma WaitedTwice(a: seq<real>, b: seq<real>, r: CallResult)
    ensures Waited([], r) == r && Waited(a, Waited(b, r)) == Waited(a + b, r)
  {
    assert [] + r.waits == r.waits && a + (b + r.waits) == a + b + r.waits;
  }

  /** What the loop of client.ts does from its n-th send on. */
  function HttpSpec(d: Demand, p: Policy, mayRecover: bool, world: nat -> Attempt, n: nat, retries: nat, recovered: bool): CallResult
    decreases (if recovered then 0 else 1) + (if retries < Limit(d, p) then Limit(d, p) - retries else 0)
  {
    match MoveOn(d, p, mayRecover, world(n), retries, recovered)
    case Finish(ok) => CallResult(ok, if world(n).NotSent? then n else n + 1, [])
    case Resend => HttpSpec(d, p, mayRecover, world, n + 1, retries, true)
    case RetryAfter(ms) => Waited([ms], HttpSpec(d, p, mayRecover, world, n + 1, retries + 1, recovered))
  }

  lemma CreditLeft(e: HttpError, d: Demand, used: nat, p: Policy, random: real)
    ensures RetryDelay(e, d, used, p, random).Some? ==> used < Limit(d, p)
  {
  }

  lemma NothingMore(waits: seq<real>, ok: bool, sends: nat)
    ensures Waited(waits, CallResult(ok, sends, [])) == CallResult(ok, sends, waits)
  {
    assert waits + [] == waits;
  }

  method ExecuteHttp(d: Demand, p: Policy, mayRecover: bool, world: nat -> Attempt) returns (r: CallResult)
    ensures r == HttpSpec(d, p, mayRecover, world, 0, 0, false)
    ensures r.sends <= 2 + Limit(d, p) && |r.waits| <= Limit(d, p)
  {
    hide RetryDelay, Limit, Waited;
    var auth := new RequestAuth(mayRecover);
    var retries, sends, waits := 0, 0, [];
    ghost var all := HttpSpec(d, p, mayRecover, world, 0, 0, false);
    WaitedTwice([], [], all);
    while true
      invariant fresh(auth)
      invariant retries <= Limit(d, p) && |waits| == retries && sends == retries + (if auth.recovered then 1 else 0)
      invariant all == Waited(waits, HttpSpec(d, p, mayRecover, world, sends, retries, auth.recovered))
      decreases (if auth.recovered then 0 else 1) + Limit(d, p) - retries
    {
      var attempt := world(sends);
      ghost var move := MoveOn(d, p, mayRecover, attempt, retries, auth.recovered);
      if !attempt.NotSent? { sends := sends + 1; }
      if move.Finish? { NothingMore(waits, move.ok, sends); }
      if !attempt.Failure? { return CallResult(attempt.Success?, sends, waits); }
      var recovery := auth.Recover(attempt.session);
      if recovery == Raised { return CallResult(false, sends, waits); }
      if recovery == Not {
        var delay := if attempt.transport then RetryDelay(attempt.error, d, retries, p, attempt.random) else None;
        if delay.None? { return CallResult(false, sends, waits); }
        CreditLeft(attempt.error, d, retries, p, attempt.random);
        WaitedTwice(waits, [delay.value], HttpSpec(d, p, mayRecover, world, sends, retries + 1, auth.recovered));
        retries := retries + 1;
        waits := waits + [delay.value];
      }
    }
  }

  predicate RandomOk(world: nat -> Attempt, n: nat) {
    world(n).Failure? ==> 0.0 <= world(n).random < 1.0
  }

  /** Every wait of a call is within the longest delay, and after each the call sends again, unless it is stopped. */
  lemma {:induction false} WaitsAreBounded(d: Demand, p: Policy, mayRecover: bool, world: nat -> Attempt, n: nat, retries: nat, recovered: bool)
    requires ProperPolicy(p) && forall i: nat :: RandomOk(world, i)
    ensures var r := HttpSpec(d, p, mayRecover, world, n, retries, recovered);
            && (forall i :: 0 <= i < |r.waits| ==> 0.0 <= r.waits[i] <= p.maxDelayMs)
            && n + |r.waits| <= r.sends
    decreases (if recovered then 0 else 1) + (if retries < Limit(d, p) then Limit(d, p) - retries else 0)
  {
    hide RetryDelay;
    assert RandomOk(world, n);
    var a := world(n);
    match MoveOn(d, p, mayRecover, a, retries, recovered) {
      case Finish(_) =>
      case Resend => WaitsAreBounded(d, p, mayRecover, world, n + 1, retries, true);
      case RetryAfter(_) =>
        CreditLeft(a.error, d, retries, p, a.random);
        DelayIsBounded(a.error, d, retries, p, a.random);
        WaitsAreBounded(d, p, mayRecover, world, n + 1, retries + 1, recovered);
    }
  }

  /** A failure the policy answers with another attempt, as long as there is credit. */
  predicate Retryable(d: Demand, p: Policy, mayRecover: bool, a: Attempt) {
    && a.Failure? && a.transport && !a.session.stopped && (mayRecover ==> a.session.verdict == Keep)
    && Allowed(d) && Transient(a.error.kind) && Minimum(a.error.after) <= p.maxDelayMs
  }

  lemma CanRetry(d: Demand, p: Policy, mayRecover: bool, a: Attempt, retries: nat)
    requires ProperPolicy(p) && Retryable(d, p, mayRecover, a) && retries < Limit(d, p)
    ensures RetryDelay(a.error, d, retries, p, a.random).Some?
    ensures MoveOn(d, p, mayRecover, a, retries, false).RetryAfter? && MoveOn(d, p, mayRecover, a, retries, true).RetryAfter?
  {
    hide Ceiling, Jitter;
  }

  /** Such failures, as many as there are retries left, are each followed by a wait and another attempt. */
  lemma {:induction false} RetriesGoOn(d: Demand, p: Policy, mayRecover: bool, world: nat -> Attempt, n: nat, m: nat, retries: nat,
                                       recovered: bool)
    requires ProperPolicy(p) && n <= m && retries + (m - n) <= Limit(d, p)
    requires forall i: nat :: n <= i < m ==> Retryable(d, p, mayRecover, world(i)) && RandomOk(world, i)
    ensures var r, rest := HttpSpec(d, p, mayRecover, world, n, retries, recovered),
                           HttpSpec(d, p, mayRecover, world, m, retries + (m - n), recovered);
            r.ok == rest.ok && r.sends == rest.sends && |r.waits| == m - n + |rest.waits|
    decreases m - n
  {
    hide RetryDelay, Limit;
    if n < m {
      var a := world(n);
      assert Retryable(d, p, mayRecover, a) && RandomOk(world, n);
      CanRetry(d, p, mayRecover, a, retries);
      hide Retryable;
      RetriesGoOn(d, p, mayRecover, world, n + 1, m, retries + 1, recovered);
    }
  }

  /** A call that meets only such failures is sent again until it succeeds or its retries are used up, all of
      them: it is not given up earlier. */
  lemma AllRetriesAreUsed(d: Demand, p: Policy, mayRecover: bool, world: nat -> Attempt, m: nat)
    requires ProperPolicy(p) && m <= Limit(d, p)
    requires forall i: nat :: i < m ==> Retryable(d, p, mayRecover, world(i)) && RandomOk(world, i)
    ensures var r := HttpSpec(d, p, mayRecover, world, 0, 0, false);
            && (world(m).Success? ==> r.ok && r.sends == m + 1 && |r.waits| == m)
            && (m == Limit(d, p) && Retryable(d, p, mayRecover, world(m)) ==> !r.ok && r.sends == m + 1 && |r.waits| == m)
  {
    RetriesGoOn(d, p, mayRecover, world, 0, m, 0, false);
    hide Limit, Allowed, Transient;
  }

  /** A call succeeds only with its last attempt, after failures. */
  lemma {:induction false} SuccessIsLast(d: Demand, p: Policy, mayRecover: bool, world: nat -> Attempt, n: nat, retries: nat, recovered: bool)
    ensures var r := HttpSpec(d, p, mayRecover, world, n, retries, recovered);
            && n <= r.sends
            && (r.ok ==> n < r.sends && world(r.sends - 1).Success? && forall i :: n <= i < r.sends - 1 ==> world(i).Failure?)
    decreases (if recovered then 0 else 1) + (if retries < Limit(d, p) then Limit(d, p) - retries else 0)
  {
    hide RetryDelay;
    var a := world(n);
    match MoveOn(d, p, mayRecover, a, retries, recovered) {
      case Finish(_) =>
      case Resend => SuccessIsLast(d, p, mayRecover, world, n + 1, retries, true);
      case RetryAfter(_) =>
        CreditLeft(a.error, d, retries, p, a.random);
        SuccessIsLast(d, p, mayRecover, world, n + 1, retries + 1, recovered);
    }
  }

  /** One attempt to open a stream: stopped before it is sent, not connected or stopped before the response is
      taken, refused with a response, answered with something that is no event stream, or opened. */
  datatype Opening = NotSent | NotConnected | Refused(session: Session) | NotAStream | Open

  datatype Piece = Messages(count: nat) | EndOfStream | ReadFailed

  datatype StreamResult = StreamResult(ok: bool, fetches: nat, messages: nat)

  /** The messages up to the end of the stream or the first failure; a stream left hanging has no clean end. */
  function Taken(pieces: seq<Piece>): (bool, nat) {
    if pieces == [] || pieces[0] == ReadFailed then (false, 0)
    else if pieces[0] == EndOfStream then (true, 0)
    else var rest := Taken(pieces[1..]); (rest.0, pieces[0].count + rest.1)
  }

  function Total(pieces: seq<Piece>): nat {
    if pieces == [] then 0 else (if pieces[0].Messages? then pieces[0].count else 0) + Total(pieces[1..])
  }

  /** All messages in front of the end count, and none after it; only the stream's own end is a clean one. */
  lemma {:induction false} TakenUpToTheEnd(pieces: seq<Piece>, rest: seq<Piece>)
    requires forall i :: 0 <= i < |pieces| ==> pieces[i].Messages?
    ensures Taken(pieces + [EndOfStream] + rest) == (true, Total(pieces))
    ensures Taken(pieces + [ReadFailed] + rest) == (false, Total(pieces))
    ensures Taken(pieces) == (false, Total(pieces))
  {
    if pieces != [] {
      TakenUpToTheEnd(pieces[1..], rest);
      assert (pieces + [EndOfStream] + rest)[1..] == pieces[1..] + [EndOfStream] + rest;
      assert (pieces + [ReadFailed] + rest)[1..] == pieces[1..] + [ReadFailed] + rest;
    }
  }

  /** Whether a refused opening is followed by another. */
  predicate OpensAgain(mayRecover: bool, o: Opening, recovered: bool) {
    o.Refused? && mayRecover && !recovered && !o.session.stopped
    && o.session.verdict == AuthProtocol.Recover && o.session.refreshed == Renewed
  }

  /** What the loop and the reading after it come to. */
  function StreamSpec(mayRecover: bool, world: nat -> Opening, pieces: seq<Piece>): StreamResult {
    var again := OpensAgain(mayRecover, world(0), false);
    var last := if again then world(1) else world(0);
    var (ok, messages) := if last.Open? then Taken(pieces) else (false, 0);
    StreamResult(ok, (if again then 1 else 0) + (if last.NotSent? then 0 else 1), messages)
  }

  /** execute of sse/client.ts. */
  class StreamCall {
    var timer: bool
    var listener: bool
    var body: bool
    var reader: bool
    var aborted: bool

    constructor ()
      ensures !timer && !listener && !body && !reader && !aborted
    {
      timer, listener, body, reader, aborted := false, false, false, false, false;
    }

    method ReadAll(pieces: seq<Piece>) returns (ok: bool, messages: nat)
      ensures (ok, messages) == Taken(pieces)
    {
      messages := 0;
      var i := 0;
      while i < |pieces|
        invariant i <= |pieces|
        invariant Taken(pieces) == (Taken(pieces[i..]).0, messages + Taken(pieces[i..]).1)
      {
        assert pieces[i..][1..] == pieces[i + 1..];
        match pieces[i] {
          case EndOfStream => return true, messages;
          case ReadFailed => return false, messages;
          case Messages(count) => messages := messages + count;
        }
        i := i + 1;
      }
      ok := false;
    }

    /** The try block: only refusals before the stream opens are recovered from. */
    method Stream(mayRecover: bool, world: nat -> Opening, pieces: seq<Piece>) returns (r: StreamResult)
      modifies this
      ensures r == StreamSpec(mayRecover, world, pieces)
    {
      var auth := new RequestAuth(mayRecover);
      var fetches := 0;
      while true
        invariant fresh(auth)
        invariant fetches == if auth.recovered then 1 else 0
        invariant fetches == 1 ==> OpensAgain(mayRecover, world(0), false)
        invariant fetches == 0 || fetches == 1
        decreases if auth.recovered then 0 else 1
      {
        var opening := world(fetches);
        if opening.NotSent? { return StreamResult(false, fetches, 0); }
        timer := true;
        fetches := fetches + 1;
        timer := false;
        if opening.NotConnected? { return StreamResult(false, fetches, 0); }
        body := true;
        if opening.Open? { break; }
        if opening.NotAStream? { return StreamResult(false, fetches, 0); }
        var recovery := auth.Recover(opening.session);
        if recovery != Again { return StreamResult(false, fetches, 0); }
      }
      reader := true;
      var ok, messages := ReadAll(pieces);
      return StreamResult(ok, fetches, messages);
    }

    /** The finally block, whichever way the try block was left. */
    method Dispose()
      modifies this
      ensures !timer && !listener && !body && !reader && aborted
    {
      timer, listener, aborted := false, false, true;
      if reader { body := false; } else if body { body := false; }
      reader := false;
    }

    method Execute(mayRecover: bool, world: nat -> Opening, pieces: seq<Piece>) returns (r: StreamResult)
      modifies this
      ensures r == StreamSpec(mayRecover, world, pieces) && r.fetches <= 2
      ensures !timer && !listener && !body && !reader && aborted
    {
      listener := true;
      r := Stream(mayRecover, world, pieces);
      Dispose();
    }
  }
}
