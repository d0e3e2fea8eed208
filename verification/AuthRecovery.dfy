/** What the recovery protocol achieves: a refused request of a live session always gets a refresh of its own or
    shares one still in flight, is sent again with new headers once renewed, and leads to onUnauthorized once the
    session has expired (sdk/frontend/src/http/auth/session.ts and auth/request.ts). */
module AuthRecovery {
  import opened Optional
  import opened AuthProtocol
  import opened AuthSafety

  // ----- no epoch runs out of refreshes -----

  predicate Usable(round: Round) {
    InFlight(round.refresh) || (round.refresh == Absent && round.refreshCalls == 0)
  }

  lemma OwnRoundUsable(history: seq<Epoch>, sh: Shared, i: nat)
    requires history != [] && SharedOk(history, sh) && i < |sh.states|
    ensures sh.states[i].round < |sh.rounds| && Usable(sh.rounds[sh.states[i].round])
  {
    assert StateOk(history, sh, i);
    assert RoundOk(sh, sh.states[i].round);
  }

  lemma CaptureUsable(s: System)
    requires Inv(s)
    ensures var b := Captured(s.shared, Now(s));
            && SharedOk(s.history, b) && SnapshotOk(b, SnapshotOf(b, Now(s)))
            && Usable(b.rounds[SnapshotOf(b, Now(s)).round])
  {
    CapturedOk(s.history, s.shared);
    hide Captured, SharedOk, Usable;
    var b := Captured(s.shared, Now(s));
    OwnRoundUsable(s.history, b, b.current.value);
  }

  /** Over every interleaving no epoch state hands out a settled round: what a capture gets has either not begun
      to refresh or is in the middle of it. */
  lemma NoStateIsSpent(k: Config, e: Epoch, actions: seq<Action>)
    ensures var s := Run(k, Initial(e), actions);
            && (forall i :: 0 <= i < |s.shared.states| ==>
                  s.shared.states[i].round < |s.shared.rounds| && Usable(s.shared.rounds[s.shared.states[i].round]))
            && s.history != []
            && var b := Captured(s.shared, Now(s));
               b.current.Some? && b.current.value < |b.states|
               && var rd := SnapshotOf(b, Now(s)).round; rd < |b.rounds| && Usable(b.rounds[rd])
  {
    hide Step, Run;
    InitialOk(e);
    RunOk(k, Initial(e), actions);
    var s := Run(k, Initial(e), actions);
    forall i | 0 <= i < |s.shared.states|
      ensures s.shared.states[i].round < |s.shared.rounds| && Usable(s.shared.rounds[s.shared.states[i].round])
    {
      OwnRoundUsable(s.history, s.shared, i);
    }
    CaptureUsable(s);
  }

  // ----- counting the calls of refreshSession -----

  predicate Owned(sh: Shared, rd: nat, e: Epoch)
    requires rd < |sh.rounds|
  {
    sh.rounds[rd].owner < |sh.states| && EpochOf(sh, rd) == e
  }

  function CallsUpTo(sh: Shared, e: Epoch, n: nat): nat
    requires n <= |sh.rounds|
  {
    if n == 0 then 0
    else CallsUpTo(sh, e, n - 1) + if Owned(sh, n - 1, e) then sh.rounds[n - 1].refreshCalls else 0
  }

  /** How often refreshSession was called for an epoch. */
  function Calls(sh: Shared, e: Epoch): nat { CallsUpTo(sh, e, |sh.rounds|) }

  lemma {:induction false} SetRoundCalls(sh: Shared, rd: nat, round: Round, e: Epoch, n: nat)
    requires rd < |sh.rounds| && n <= |sh.rounds| && round.owner == sh.rounds[rd].owner
    ensures CallsUpTo(SetRound(sh, rd, round), e, n)
         == CallsUpTo(sh, e, n) + if rd < n && Owned(sh, rd, e) then round.refreshCalls - sh.rounds[rd].refreshCalls else 0
  {
    if n > 0 { SetRoundCalls(sh, rd, round, e, n - 1); }
  }

  lemma {:induction false} SameCalls(a: Shared, b: Shared, e: Epoch, n: nat)
    requires n <= |a.rounds| && n <= |b.rounds| && |a.states| <= |b.states|
    requires forall i :: 0 <= i < |a.states| ==> a.states[i].epoch == b.states[i].epoch
    requires forall i :: 0 <= i < n ==>
               a.rounds[i].owner == b.rounds[i].owner < |a.states| && a.rounds[i].refreshCalls == b.rounds[i].refreshCalls
    ensures CallsUpTo(a, e, n) == CallsUpTo(b, e, n)
  {
    if n > 0 { SameCalls(a, b, e, n - 1); }
  }

  /** A state or a round that is new has called nothing yet. */
  lemma CapturedCalls(history: seq<Epoch>, sh: Shared, now: Epoch, e: Epoch)
    requires history != [] && SharedOk(history, sh)
    ensures Calls(Captured(sh, now), e) == Calls(sh, e)
  {
    var b := Captured(sh, now);
    forall i | 0 <= i < |sh.rounds| ensures sh.rounds[i].owner < |sh.states| { assert RoundOk(sh, i); }
    SameCalls(sh, b, e, |sh.rounds|);
  }

  lemma FinishedCalls(history: seq<Epoch>, sh: Shared, rd: nat, e: Epoch)
    requires history != [] && SharedOk(history, sh) && rd < |sh.rounds|
    requires sh.rounds[rd].owner < |sh.states| && sh.rounds[rd].refresh.Closing?
    ensures Calls(Finished(sh, rd), e) == Calls(sh, e)
  {
    var b := Finished(sh, rd);
    forall i | 0 <= i < |sh.rounds| ensures sh.rounds[i].owner < |sh.states| { assert RoundOk(sh, i); }
    SameCalls(sh, b, e, |sh.rounds|);
  }

  // ----- runs in pieces -----

  lemma {:induction false} RunConcat(k: Config, s: System, a: seq<Action>, b: seq<Action>)
    ensures Run(k, s, a + b) == Run(k, Run(k, s, a), b)
    decreases |a|
  {
    hide Step;
    if a == [] {
      assert a + b == b;
    } else {
      assert (a + b)[1..] == a[1..] + b;
      RunConcat(k, Step(k, s, a[0]), a[1..], b);
    }
  }

  lemma RunOne(k: Config, s: System, a: Action)
    ensures Run(k, s, [a]) == Step(k, s, a)
  {
    hide Step;
    assert [a][1..] == [] && Run(k, s, [a]) == Run(k, Step(k, s, a), []);
  }

  lemma RunTwo(k: Config, s: System, a: Action, b: Action)
    ensures Run(k, s, [a, b]) == Step(k, Step(k, s, a), b)
  {
    hide Step;
    RunOne(k, Step(k, s, a), b);
    assert [a, b][1..] == [b];
  }

  lemma RunThree(k: Config, s: System, a: Action, b: Action, c: Action)
    ensures Run(k, s, [a, b, c]) == Step(k, Step(k, Step(k, s, a), b), c)
  {
    hide Step;
    RunTwo(k, Step(k, s, a), b, c);
    assert [a, b, c][1..] == [b, c];
  }

  // ----- one attempt -----

  /** An authenticated request of the present session that nobody canceled. */
  predicate Alive(s: System, r: nat) {
    && s.history != [] && r < |s.requests| && Applies(s, s.requests[r])
    && s.requests[r].auth.Some? && Active(s, s.requests[r])
  }

  function Attempt(r: nat, readAt: nat, answer: Answer): seq<Action> {
    [OfRequest(r, HeadersArrive(readAt, true)), OfRequest(r, Send), OfRequest(r, Respond(answer))]
  }

  /** The headers are read and the request sent with them. */
  lemma AttemptSends(k: Config, s: System, r: nat, answer: Answer)
    requires Alive(s, r) && s.requests[r].phase.AwaitHeaders? && s.requests[r].phase.calledAt < |s.history|
    requires answer != Broken
    ensures var q, now, t := s.requests[r], Now(s), Run(k, s, Attempt(r, |s.history| - 1, answer));
            && t.history == s.history && t.readable == s.readable && t.shared == s.shared
            && t.log == s.log + [Sent(now, Some(now), now)]
            && t.requests == s.requests[r := q.(
                 headers := Some(now), sends := q.sends + 1,
                 phase := if answer == Bad then Judging(q.call.kind.Http?) else if q.call.kind.Sse? then Reading else Converting)]
  {
    var a, b, c := OfRequest(r, HeadersArrive(|s.history| - 1, true)), OfRequest(r, Send), OfRequest(r, Respond(answer));
    RunThree(k, s, a, b, c);
    hide Run, Judged, Refreshed, Turned, Opened;
    var q, now := s.requests[r], Now(s);
    var s1 := Step(k, s, a);
    var q1 := q.(phase := Ready, headers := Some(now));
    assert s1.requests[r] == q1 && s1.shared == s.shared && s1.log == s.log;
    var s2 := Step(k, s1, b);
    assert s2.requests[r] == q1.(phase := Sending, sends := q.sends + 1) && s2.shared == s.shared;
    var s3 := Step(k, s2, c);
    assert s3.requests == s.requests[r := s3.requests[r]];
  }

  /** The next step of a request that nobody may wait for any longer. */
  function LastEvent(p: Phase): RequestEvent {
    match p
    case Ready => Send
    case Recovered => Reread
    case Unrecovered(_) => Decide(true)
    case _ => Abandon
  }

  /** A canceled request ends with its next step, whatever it is waiting for, and changes nothing else. */
  lemma CanceledEnds(k: Config, s: System, r: nat)
    requires s.history != [] && r < |s.requests| && Applies(s, s.requests[r])
    requires s.requests[r].canceled && !s.requests[r].phase.Done?
    ensures Step(k, s, OfRequest(r, LastEvent(s.requests[r].phase))) == s.(requests := s.requests[r := Stop(s.requests[r])])
  {
    hide Judged, Refreshed;
    assert s.log + [] == s.log;
  }

  // ----- the refresh -----

  /** A refused request that has not recovered yet and whose round has not called refreshSession yet. */
  predicate Refused(k: Config, s: System, r: nat) {
    && Inv(s) && Alive(s, r) && s.requests[r].phase.Judging? && MayRecover(k, s.requests[r]) && !s.requests[r].recovered
    && var refresh := s.shared.rounds[s.requests[r].auth.value.round].refresh; refresh == Absent || refresh == Queued
  }

  function RefreshSteps(r: nat, rd: nat): seq<Action> { [OfRequest(r, Judge(Recover)), OfRound(rd, BeginRefresh)] }

  /** Its recovery makes exactly one more call of refreshSession for the epoch. */
  lemma RecoveryCalls(k: Config, s: System, r: nat)
    requires Refused(k, s, r)
    ensures var q := s.requests[r];
            var rd := q.auth.value.round;
            var t := Run(k, s, RefreshSteps(r, rd));
            && Inv(t) && t.history == s.history && t.readable == s.readable && t.log == s.log
            && t.requests == s.requests[r := q.(phase := AwaitRefresh, recovered := true)]
            && t.shared == SetRound(s.shared, rd, s.shared.rounds[rd].(refresh := Calling, refreshCalls := 1))
            && Calls(t.shared, Now(s)) == Calls(s.shared, Now(s)) + 1
  {
    var q := s.requests[r];
    var rd := q.auth.value.round;
    var a, b := OfRequest(r, Judge(Recover)), OfRound(rd, BeginRefresh);
    RunTwo(k, s, a, b);
    StepOk(k, s, a);
    StepOk(k, Step(k, s, a), b);
    assert RequestOk(s.history, s.shared, q) && RoundOk(s.shared, rd);
    SetRoundCalls(s.shared, rd, s.shared.rounds[rd].(refresh := Calling, refreshCalls := 1), Now(s), |s.shared.rounds|);
    hide Run, Inv, SharedOk, RequestOk, NoticeCountOk, CallsUpTo, NotifyStep, Opened;
    var s1 := Step(k, s, a);
    assert s1.requests[r] == q.(phase := AwaitRefresh, recovered := true);
    assert s1.shared.rounds[rd] == s.shared.rounds[rd].(refresh := Queued) && s1.log == s.log;
    var s2 := Step(k, s1, b);
    assert s2.shared.rounds == s.shared.rounds[rd := s.shared.rounds[rd].(refresh := Calling, refreshCalls := 1)];
  }

  function AnswerSteps(r: nat, rd: nat, result: Outcome): seq<Action> {
    [OfRound(rd, SettleRefresh(result)), OfRound(rd, FinishRefresh), OfRequest(r, ResumeRefresh)]
  }

  /** Where the answer of refreshSession leaves the request. */
  function PhaseFor(result: Outcome): Phase {
    match result
    case Renewed => Recovered
    case Expired => AwaitNotice
    case Failed => Done(false)
  }

  /** A request whose round is waiting for refreshSession. */
  predicate Refreshing(s: System, r: nat) {
    && Inv(s) && Alive(s, r) && s.requests[r].phase.AwaitRefresh?
    && s.shared.rounds[s.requests[r].auth.value.round].refresh == Calling
  }

  lemma SettledRound(sh: Shared, rd: nat)
    requires rd < |sh.rounds| && sh.rounds[rd].owner < |sh.states| && sh.rounds[rd].refresh.Closing?
    requires sh.states[sh.rounds[rd].owner].round == rd
    ensures var b := Finished(sh, rd);
            && |b.rounds| == |sh.rounds| + 1 && |b.states| == |sh.states|
            && b.rounds[rd] == sh.rounds[rd].(refresh := Settled(sh.rounds[rd].refresh.outcome))
            && b.states[sh.rounds[rd].owner].round == |sh.rounds| && b.rounds[|sh.rounds|] == NewRound(sh.rounds[rd].owner)
            && forall i :: 0 <= i < |sh.states| ==> b.states[i].epoch == sh.states[i].epoch
  {
  }

  /** The round settles, calls nothing more, and leaves the epoch a new one. */
  lemma RoundCloses(k: Config, s: System, r: nat, result: Outcome)
    requires Refreshing(s, r)
    ensures var state, rd := s.requests[r].auth.value.state, s.requests[r].auth.value.round;
            var t := Step(k, Step(k, s, OfRound(rd, SettleRefresh(result))), OfRound(rd, FinishRefresh));
            && Inv(t) && t.(shared := s.shared) == s && t.requests[r] == s.requests[r] && Alive(t, r)
            && Calls(t.shared, Now(s)) == Calls(s.shared, Now(s))
            && |s.shared.rounds| < |t.shared.rounds|
            && t.shared.rounds[rd] == s.shared.rounds[rd].(refresh := Settled(result))
            && t.shared.rounds[rd].owner == state < |t.shared.states|
            && t.shared.rounds[rd].notice == Silent && t.shared.rounds[rd].noticeCalls == 0
            && t.shared.states[state].round == |s.shared.rounds|
            && t.shared.rounds[|s.shared.rounds|] == NewRound(state)
  {
    var q := s.requests[r];
    var rd := q.auth.value.round;
    var a, b := OfRound(rd, SettleRefresh(result)), OfRound(rd, FinishRefresh);
    var s1 := Step(k, s, a);
    StepOk(k, s, a);
    StepOk(k, s1, b);
    assert RequestOk(s.history, s.shared, q) && RoundOk(s.shared, rd);
    var closing := s.shared.rounds[rd].(refresh := Closing(result));
    hide React, Opened;
    assert s1 == s.(shared := SetRound(s.shared, rd, closing));
    SetRoundCalls(s.shared, rd, closing, Now(s), |s.shared.rounds|);
    FinishedCalls(s.history, s1.shared, rd, Now(s));
    SettledRound(s1.shared, rd);
    hide Inv, SharedOk, RequestOk, Finished;
    var s2 := Step(k, s1, b);
    assert s2 == s.(shared := Finished(s1.shared, rd));
  }

  lemma ResumeTakesOn(k: Config, s: System, r: nat)
    requires Inv(s) && Alive(s, r) && s.requests[r].phase.AwaitRefresh?
    requires var round := s.shared.rounds[s.requests[r].auth.value.round]; round.refresh.Settled? && round.notice == Silent
    ensures var q := s.requests[r];
            var rd := q.auth.value.round;
            var result := s.shared.rounds[rd].refresh.outcome;
            var t := Step(k, s, OfRequest(r, ResumeRefresh));
            && t.history == s.history && t.readable == s.readable && t.log == s.log
            && t.requests == s.requests[r := q.(phase := PhaseFor(result))]
            && t.shared == (if result == Expired && k.canNotify
                            then SetRound(s.shared, rd, s.shared.rounds[rd].(notice := NoticeQueued)) else s.shared)
            && Calls(t.shared, Now(s)) == Calls(s.shared, Now(s))
  {
    var rd := s.requests[r].auth.value.round;
    SetRoundCalls(s.shared, rd, s.shared.rounds[rd].(notice := NoticeQueued), Now(s), |s.shared.rounds|);
    hide Inv, Judged, Turned, Opened;
    assert s.log + [] == s.log;
  }

  /** The answer takes the request on, calls nothing more, and leaves the epoch a round that can refresh again. */
  lemma AnswerArrives(k: Config, s: System, r: nat, result: Outcome)
    requires Refreshing(s, r)
    ensures var q := s.requests[r];
            var rd := q.auth.value.round;
            var t := Run(k, s, AnswerSteps(r, rd, result));
            && Inv(t) && t.history == s.history && t.readable == s.readable && t.log == s.log
            && t.requests == s.requests[r := q.(phase := PhaseFor(result))]
            && Calls(t.shared, Now(s)) == Calls(s.shared, Now(s))
            && |s.shared.rounds| < |t.shared.rounds| && t.shared.rounds[rd].owner == q.auth.value.state < |t.shared.states|
            && t.shared.rounds[rd].notice == (if result == Expired && k.canNotify then NoticeQueued else Silent)
            && t.shared.rounds[rd].noticeCalls == 0
            && t.shared.states[q.auth.value.state].round == |s.shared.rounds|
            && t.shared.rounds[|s.shared.rounds|] == NewRound(q.auth.value.state)
  {
    var rd := s.requests[r].auth.value.round;
    var a, b, c := OfRound(rd, SettleRefresh(result)), OfRound(rd, FinishRefresh), OfRequest(r, ResumeRefresh);
    RunThree(k, s, a, b, c);
    RoundCloses(k, s, r, result);
    hide Step, Run, Inv, Calls;
    var s2 := Step(k, Step(k, s, a), b);
    StepOk(k, s2, c);
    ResumeTakesOn(k, s2, r);
  }

  // ----- from the refusal to the end -----

  lemma RereadAsks(k: Config, s: System, r: nat)
    requires Alive(s, r) && s.requests[r].phase == Recovered
    ensures Step(k, s, OfRequest(r, Reread))
         == s.(requests := s.requests[r := s.requests[r].(phase := AwaitHeaders(|s.history| - 1))])
  {
    hide Judged, Refreshed;
    assert s.log + [] == s.log;
  }

  /** A renewed request reads its headers anew and is sent a second time. */
  lemma RenewedIsSentAgain(k: Config, s: System, r: nat, answer: Answer)
    requires Inv(s) && Alive(s, r) && s.requests[r].phase == Recovered && answer != Broken
    ensures var q, now, t := s.requests[r], Now(s), Run(k, s, [OfRequest(r, Reread)] + Attempt(r, |s.history| - 1, answer));
            && t.history == s.history && t.shared == s.shared && t.log == s.log + [Sent(now, Some(now), now)]
            && t.readable == s.readable
            && t.requests == s.requests[r := q.(
                 headers := Some(now), sends := q.sends + 1,
                 phase := if answer == Bad then Judging(q.call.kind.Http?) else if q.call.kind.Sse? then Reading else Converting)]
  {
    var a := OfRequest(r, Reread);
    RunConcat(k, s, [a], Attempt(r, |s.history| - 1, answer));
    RunOne(k, s, a);
    hide Run, Inv, Step, Attempt;
    RereadAsks(k, s, r);
    AttemptSends(k, Step(k, s, a), r, answer);
  }

  function NoticeSteps(r: nat, rd: nat, ok: bool): seq<Action> {
    [OfRound(rd, BeginNotice), OfRound(rd, SettleNotice(ok)), OfRequest(r, ResumeNotice)]
  }

  /** A request of an expired session: onUnauthorized is called, and the call ends. */
  lemma ExpiredIsNotified(k: Config, s: System, r: nat, ok: bool)
    requires Inv(s) && Alive(s, r) && s.requests[r].phase.AwaitNotice? && k.canNotify
    requires s.shared.rounds[s.requests[r].auth.value.round].notice == NoticeQueued
    ensures var rd := s.requests[r].auth.value.round;
            var t := Run(k, s, NoticeSteps(r, rd, ok));
            && t.requests == s.requests[r := s.requests[r].(phase := Done(false))] && t.log == s.log
            && |t.shared.rounds| == |s.shared.rounds|
            && t.shared.rounds[rd].noticeCalls == s.shared.rounds[rd].noticeCalls + 1
  {
    var rd := s.requests[r].auth.value.round;
    var a, b, c := OfRound(rd, BeginNotice), OfRound(rd, SettleNotice(ok)), OfRequest(r, ResumeNotice);
    RunThree(k, s, a, b, c);
    assert RequestOk(s.history, s.shared, s.requests[r]) && RoundOk(s.shared, rd);
    hide Run, Inv, SharedOk, RequestOk, Judged, Refreshed, Opened;
    var round := s.shared.rounds[rd];
    var s1 := Step(k, s, a);
    var called := round.(notice := NoticeCalling, noticeCalls := round.noticeCalls + 1);
    assert s1 == s.(shared := SetRound(s.shared, rd, called));
    var s2 := Step(k, s1, b);
    assert s2.requests == s.requests && s2.shared.rounds[rd] == called.(notice := NoticeSettled(ok)) && s2.log == s.log;
    var s3 := Step(k, s2, c);
    assert s3.requests == s.requests[r := Stop(s.requests[r])];
  }

  lemma StartedOk(s: System, r: nat)
    requires Inv(s) && r < |s.requests|
    ensures RequestOk(s.history, s.shared, s.requests[r])
  {
  }

  /** A new request's way to its refusal. */
  lemma StartedIsRefused(k: Config, s: System, call: Call)
    requires Inv(s) && s.readable && call.authenticated && call.authRecovery && k.canRefresh
    ensures var r, b := |s.requests|, Captured(s.shared, Now(s));
            var q := Request(call, Some(SnapshotOf(b, Now(s))), Judging(call.kind.Http?), false, false, Some(Now(s)), 1, 0);
            var t := Run(k, s, [Start(call)] + Attempt(r, |s.history| - 1, Bad));
            && Inv(t) && t.history == s.history && t.readable && t.requests == s.requests + [q] && t.shared == b
            && t.log == s.log + [Sent(Now(s), Some(Now(s)), Now(s))]
            && Alive(t, r) && MayRecover(k, q)
  {
    var r, b := |s.requests|, Captured(s.shared, Now(s));
    var attempt := Attempt(r, |s.history| - 1, Bad);
    RunConcat(k, s, [Start(call)], attempt);
    RunOne(k, s, Start(call));
    StepOk(k, s, Start(call));
    CapturedOk(s.history, s.shared);
    hide Run, Inv, SharedOk, Captured;
    var s1 := Step(k, s, Start(call));
    var q := Request(call, Some(SnapshotOf(b, Now(s))), AwaitHeaders(|s.history| - 1), false, false, None, 0, 0);
    assert s1.requests == s.requests + [q] && s1.shared == b && s1.history == s.history && s1.readable && s1.log == s.log;
    assert RequestOk(s1.history, s1.shared, s1.requests[r]) by { StartedOk(s1, r); }
    AttemptSends(k, s1, r, Bad);
    RunOk(k, s1, attempt);
  }

  /** refreshSession has been asked for in this epoch and has not answered. */
  predicate RefreshInFlight(sh: Shared, e: Epoch) {
    exists rd :: 0 <= rd < |sh.rounds| && Owned(sh, rd, e) && InFlight(sh.rounds[rd].refresh)
  }

  /** The refusal of a new request, the refresh it asks for, and refreshSession's answer. */
  function RefusalSteps(s: System, call: Call, result: Outcome): seq<Action>
    requires s.history != []
  {
    var r, rd := |s.requests|, SnapshotOf(Captured(s.shared, Now(s)), Now(s)).round;
    [Start(call)] + Attempt(r, |s.history| - 1, Bad) + RefreshSteps(r, rd) + AnswerSteps(r, rd, result)
  }

  /** The new request was refused once, refreshSession called once more, and its answer taken. */
  predicate Served(k: Config, s: System, call: Call, result: Outcome, t: System)
    requires s.history != []
  {
    var r := |s.requests|;
    && Inv(t) && t.history == s.history && t.readable && |t.requests| == r + 1 && t.requests[..r] == s.requests
    && Calls(t.shared, Now(s)) == Calls(s.shared, Now(s)) + 1 && !RefreshInFlight(t.shared, Now(s))
    && t.requests[r].call == call && t.requests[r].sends == 1 && t.requests[r].phase == PhaseFor(result)
    && Alive(t, r)
    && (result == Expired && k.canNotify ==>
          t.shared.rounds[t.requests[r].auth.value.round].notice == NoticeQueued
          && t.shared.rounds[t.requests[r].auth.value.round].noticeCalls == 0)
  }

  lemma NotInFlight(s: System)
    requires Inv(s) && !RefreshInFlight(s.shared, Now(s))
    ensures var b := Captured(s.shared, Now(s));
            var rd := SnapshotOf(b, Now(s)).round;
            rd < |b.rounds| && b.rounds[rd].refresh == Absent
  {
    CaptureUsable(s);
    var b := Captured(s.shared, Now(s));
    var t := SnapshotOf(b, Now(s));
    if b == s.shared { assert Owned(s.shared, t.round, Now(s)); }
  }

  lemma FreshIsQuiet(s: System, i: nat)
    requires Inv(s) && i < |s.shared.states| && s.shared.states[i].epoch == Now(s)
    requires s.shared.states[i].round < |s.shared.rounds| && s.shared.rounds[s.shared.states[i].round].refresh == Absent
    ensures !RefreshInFlight(s.shared, Now(s))
  {
    forall rd | 0 <= rd < |s.shared.rounds| && Owned(s.shared, rd, Now(s)) ensures !InFlight(s.shared.rounds[rd].refresh) {
      assert RoundOk(s.shared, rd);
    }
  }

  /** Up to the call of refreshSession. */
  lemma RefusalCalls(k: Config, s: System, call: Call)
    requires call.authenticated && call.authRecovery && k.canRefresh
    requires Inv(s) && s.readable && !RefreshInFlight(s.shared, Now(s))
    ensures var r, b := |s.requests|, Captured(s.shared, Now(s));
            && SnapshotOk(b, SnapshotOf(b, Now(s)))
            && var rd := SnapshotOf(b, Now(s)).round;
               var t := Run(k, s, [Start(call)] + Attempt(r, |s.history| - 1, Bad) + RefreshSteps(r, rd));
               && Refreshing(t, r) && t.history == s.history && t.readable
               && |t.requests| == r + 1 && t.requests[..r] == s.requests
               && t.requests[r].auth == Some(SnapshotOf(b, Now(s)))
               && t.requests[r].call == call && t.requests[r].sends == 1
               && Calls(t.shared, Now(s)) == Calls(s.shared, Now(s)) + 1
  {
    var r, b := |s.requests|, Captured(s.shared, Now(s));
    CaptureUsable(s);
    NotInFlight(s);
    CapturedCalls(s.history, s.shared, Now(s), Now(s));
    var rd := SnapshotOf(b, Now(s)).round;
    var first, second := [Start(call)] + Attempt(r, |s.history| - 1, Bad), RefreshSteps(r, rd);
    RunConcat(k, s, first, second);
    StartedIsRefused(k, s, call);
    hide Run, Inv, Captured, SharedOk, Usable, Calls, Attempt, RefreshSteps, RefreshInFlight;
    var s1 := Run(k, s, first);
    RecoveryCalls(k, s1, r);
    assert s1.requests[..r] == s.requests;
  }

  lemma AliveIsCurrent(s: System, r: nat)
    requires Inv(s) && Alive(s, r)
    ensures var t := s.requests[r].auth.value;
            t.epoch == Now(s) && t.state < |s.shared.states| && s.shared.states[t.state].epoch == Now(s)
  {
    assert RequestOk(s.history, s.shared, s.requests[r]);
  }

  /** What a refusal leads to. */
  lemma RefusalRefreshes(k: Config, s: System, call: Call, result: Outcome)
    requires call.authenticated && call.authRecovery && k.canRefresh
    requires Inv(s) && s.readable && !RefreshInFlight(s.shared, Now(s))
    ensures Served(k, s, call, result, Run(k, s, RefusalSteps(s, call, result)))
  {
    RefusalCalls(k, s, call);
    var r, b := |s.requests|, Captured(s.shared, Now(s));
    var rd := SnapshotOf(b, Now(s)).round;
    var first, last := [Start(call)] + Attempt(r, |s.history| - 1, Bad) + RefreshSteps(r, rd), AnswerSteps(r, rd, result);
    RunConcat(k, s, first, last);
    assert RefusalSteps(s, call, result) == first + last;
    hide Run, Inv, Captured, SharedOk, Calls, Attempt, RefreshSteps, AnswerSteps, RefreshInFlight, RefusalSteps;
    var s1 := Run(k, s, first);
    AnswerArrives(k, s1, r, result);
    var s2 := Run(k, s1, last);
    assert s2.requests[..r] == s1.requests[..r];
    AliveIsCurrent(s2, r);
    FreshIsQuiet(s2, SnapshotOf(b, Now(s)).state);
  }

  /** At every point of every run at which the session can be read and no refresh of its epoch is in flight, and
      however often it was refreshed before: a new request that is refused leads to exactly one more call of
      refreshSession, and its answer decides whether the request may be sent again. */
  lemma EveryRefusalCanRefresh(k: Config, e: Epoch, actions: seq<Action>, call: Call, result: Outcome)
    requires call.authenticated && call.authRecovery && k.canRefresh
    requires Run(k, Initial(e), actions).readable
    requires var s := Run(k, Initial(e), actions); s.history != [] && !RefreshInFlight(s.shared, Now(s))
    ensures var s := Run(k, Initial(e), actions);
            Served(k, s, call, result, Run(k, s, RefusalSteps(s, call, result)))
  {
    hide Run, Step;
    InitialOk(e);
    RunOk(k, Initial(e), actions);
    RefusalRefreshes(k, Run(k, Initial(e), actions), call, result);
  }

  /** One refused request after the other. */
  function Refusals(k: Config, s: System, call: Call, results: seq<Outcome>): System
    decreases |results|
  {
    if results == [] || s.history == [] then s
    else Refusals(k, Run(k, s, RefusalSteps(s, call, results[0])), call, results[1..])
  }

  /** There is no limit to it: as long as the epoch stays, each refused request has its own refresh, whatever the
      earlier ones answered. */
  lemma {:induction false} RefreshesAreNotSpent(k: Config, s: System, call: Call, results: seq<Outcome>)
    requires call.authenticated && call.authRecovery && k.canRefresh
    requires Inv(s) && s.readable && !RefreshInFlight(s.shared, Now(s))
    ensures var t := Refusals(k, s, call, results);
            Calls(t.shared, Now(s)) == Calls(s.shared, Now(s)) + |results|
    decreases |results|
  {
    assert s.history != [];
    hide Run, Inv, Calls, RefusalSteps, RefreshInFlight, Alive;
    if results != [] {
      RefusalRefreshes(k, s, call, results[0]);
      var t := Run(k, s, RefusalSteps(s, call, results[0]));
      assert t.history != [] && Now(t) == Now(s);
      RefreshesAreNotSpent(k, t, call, results[1..]);
    }
  }

  function AgainSteps(r: nat, readAt: nat): seq<Action> {
    [OfRequest(r, Reread)] + Attempt(r, readAt, Good) + [OfRequest(r, Convert(true))]
  }

  lemma SentAgainSucceeds(k: Config, s: System, r: nat)
    requires Inv(s) && Alive(s, r) && s.requests[r].phase == Recovered && s.requests[r].call.kind.Http?
    ensures var now, t := Now(s), Run(k, s, AgainSteps(r, |s.history| - 1));
            && r < |t.requests| && t.requests[r].phase == Done(true) && t.requests[r].sends == s.requests[r].sends + 1
            && |t.log| > 0 && t.log[|t.log| - 1] == Delivered(now, now) && t.shared == s.shared
  {
    var again, last := [OfRequest(r, Reread)] + Attempt(r, |s.history| - 1, Good), OfRequest(r, Convert(true));
    RunConcat(k, s, again, [last]);
    RenewedIsSentAgain(k, s, r, Good);
    var t := Run(k, s, again);
    RunOne(k, t, last);
    AliveIsCurrent(s, r);
    hide Run, Inv, Attempt, Judged, Refreshed;
    var u := Step(k, t, last);
    assert u.requests[r] == t.requests[r].(phase := Done(true)) && u.log == t.log + [Delivered(Now(s), Now(s))];
  }

  /** A renewed request is sent a second time and, if answered, delivered. */
  lemma RenewedSucceeds(k: Config, s: System, call: Call)
    requires call.authenticated && call.authRecovery && k.canRefresh && call.kind.Http?
    requires Inv(s) && s.readable && !RefreshInFlight(s.shared, Now(s))
    ensures var r, now := |s.requests|, Now(s);
            var t := Run(k, Run(k, s, RefusalSteps(s, call, Renewed)), AgainSteps(r, |s.history| - 1));
            && r < |t.requests| && t.requests[r].phase == Done(true) && t.requests[r].sends == 2
            && |t.log| > 0 && t.log[|t.log| - 1] == Delivered(now, now)
            && Calls(t.shared, now) == Calls(s.shared, now) + 1
  {
    RefusalRefreshes(k, s, call, Renewed);
    hide Run, RefusalSteps, Calls, RefreshInFlight;
    SentAgainSucceeds(k, Run(k, s, RefusalSteps(s, call, Renewed)), |s.requests|);
  }

  /** Of an expired session the application is told, once. */
  lemma ExpiredIsTold(k: Config, s: System, call: Call, ok: bool)
    requires call.authenticated && call.authRecovery && k.canRefresh && k.canNotify
    requires Inv(s) && s.readable && !RefreshInFlight(s.shared, Now(s))
    ensures var r, t := |s.requests|, Run(k, s, RefusalSteps(s, call, Expired));
            && Alive(t, r)
            && var rd := t.requests[r].auth.value.round;
               var u := Run(k, t, NoticeSteps(r, rd, ok));
               && r < |u.requests| && u.requests[r].phase == Done(false) && u.requests[r].sends == 1
               && rd < |u.shared.rounds| && u.shared.rounds[rd].noticeCalls == 1
  {
    RefusalRefreshes(k, s, call, Expired);
    hide Run, RefusalSteps, Calls, RefreshInFlight;
    ExpiredIsNotified(k, Run(k, s, RefusalSteps(s, call, Expired)), |s.requests|, ok);
  }

  /** Refused again after its recovery, a request asks for no second refresh: the application is told instead. */
  lemma RefusedAgainIsTold(k: Config, s: System, r: nat, ok: bool)
    requires Inv(s) && Alive(s, r) && s.requests[r].phase.Judging? && MayRecover(k, s.requests[r]) && s.requests[r].recovered
    requires k.canNotify && s.shared.rounds[s.requests[r].auth.value.round].notice == Silent
    ensures var q := s.requests[r];
            var rd := q.auth.value.round;
            var t := Step(k, s, OfRequest(r, Judge(Recover)));
            var u := Run(k, t, NoticeSteps(r, rd, ok));
            && Calls(t.shared, Now(s)) == Calls(s.shared, Now(s))
            && u.requests == s.requests[r := Stop(q)] && rd < |u.shared.rounds| == |s.shared.rounds|
            && u.shared.rounds[rd].noticeCalls == s.shared.rounds[rd].noticeCalls + 1
  {
    var a, rd := OfRequest(r, Judge(Recover)), s.requests[r].auth.value.round;
    var queued := s.shared.rounds[rd].(notice := NoticeQueued);
    SetRoundCalls(s.shared, rd, queued, Now(s), |s.shared.rounds|);
    StepOk(k, s, a);
    hide Run, Inv, CallsUpTo, Refreshed, Turned, Opened, NoticeSteps;
    var t := Step(k, s, a);
    assert t.requests == s.requests[r := s.requests[r].(phase := AwaitNotice)] && t.shared == SetRound(s.shared, rd, queued);
    ExpiredIsNotified(k, t, r, ok);
  }

  // ----- what never happens -----

  predicate AskedFor(k: Config, q: Request) {
    q.recovered ==> q.auth.Some? && k.canRefresh && q.call.authRecovery
  }

  /** Recovery only where it was asked for and can be had, and no notice where nobody listens. */
  ghost predicate OnlyAsked(k: Config, s: System) {
    && (forall r :: 0 <= r < |s.requests| ==> AskedFor(k, s.requests[r]))
    && (!k.canNotify ==> forall rd :: 0 <= rd < |s.shared.rounds| ==> s.shared.rounds[rd].notice == Silent)
  }

  lemma ReactAsksRightly(k: Config, s: System, q: Request, event: RequestEvent)
    requires s.history != [] && Applies(s, q) && AskedFor(k, q)
    ensures var e := React(k, s, q, event);
            && AskedFor(k, e.request)
            && |e.shared.rounds| == |s.shared.rounds|
            && (!k.canNotify ==> forall rd :: 0 <= rd < |s.shared.rounds| ==> e.shared.rounds[rd].notice == s.shared.rounds[rd].notice)
  {
    hide Active, Delivery;
  }

  lemma TurnedKeepsSilence(sh: Shared, rd: nat, live: bool, turn: RoundEvent)
    requires rd < |sh.rounds| && sh.rounds[rd].owner < |sh.states|
    requires forall i :: 0 <= i < |sh.rounds| ==> sh.rounds[i].notice == Silent
    ensures forall i :: 0 <= i < |Turned(sh, rd, live, turn).rounds| ==> Turned(sh, rd, live, turn).rounds[i].notice == Silent
  {
  }

  lemma StepOnlyAsked(k: Config, s: System, a: Action)
    requires OnlyAsked(k, s)
    ensures OnlyAsked(k, Step(k, s, a))
  {
    hide React, Turned;
    if s.history != [] {
      match a {
        case OfRequest(r, event) =>
          if r < |s.requests| && Applies(s, s.requests[r]) { ReactAsksRightly(k, s, s.requests[r], event); }
        case OfRound(rd, turn) =>
          if rd < |s.shared.rounds| && s.shared.rounds[rd].owner < |s.shared.states| && !k.canNotify {
            TurnedKeepsSilence(s.shared, rd, Current(s, EpochOf(s.shared, rd)), turn);
          }
        case _ =>
      }
    }
  }

  /** Over every interleaving: no request recovers that is not authenticated, was not meant to, or has no
      refreshSession to ask; and without an onUnauthorized no notice is ever given. */
  lemma {:induction false} NothingUnasked(k: Config, s: System, actions: seq<Action>)
    requires OnlyAsked(k, s)
    ensures OnlyAsked(k, Run(k, s, actions))
    decreases |actions|
  {
    hide OnlyAsked, Step;
    if actions != [] {
      StepOnlyAsked(k, s, actions[0]);
      NothingUnasked(k, Step(k, s, actions[0]), actions[1..]);
    }
  }

  /** The round as it can still become once its epoch is over: nothing is called for it, and it can only fail. */
  predicate OnlyFails(a: Round, b: Round) {
    && b.owner == a.owner && b.refreshCalls == a.refreshCalls && b.noticeCalls == a.noticeCalls
    && (match a.refresh
        case Closing(o) => b.refresh == Closing(o) || b.refresh == Settled(o)
        case Settled(o) => b.refresh == Settled(o)
        case Calling => b.refresh == Calling || b.refresh == Closing(Failed) || b.refresh == Settled(Failed)
        case _ => b.refresh == Absent || b.refresh == Queued || b.refresh == Closing(Failed) || b.refresh == Settled(Failed))
  }

  lemma TurnedOnlyFails(sh: Shared, rd: nat, turned: nat, live: bool, turn: RoundEvent)
    requires rd < |sh.rounds| && turned < |sh.rounds| && sh.rounds[turned].owner < |sh.states| && (turned == rd ==> !live)
    ensures var b := Turned(sh, turned, live, turn);
            |sh.rounds| <= |b.rounds| && OnlyFails(sh.rounds[rd], b.rounds[rd])
  {
  }

  lemma ReactOnlyFails(k: Config, s: System, q: Request, event: RequestEvent, rd: nat)
    requires s.history != [] && Applies(s, q) && rd < |s.shared.rounds|
    ensures var e := React(k, s, q, event);
            |e.shared.rounds| == |s.shared.rounds| && OnlyFails(s.shared.rounds[rd], e.shared.rounds[rd])
  {
    hide Active, Delivery;
  }

  predicate Past(s: System, rd: nat) {
    && s.history != [] && rd < |s.shared.rounds| && s.shared.rounds[rd].owner < |s.shared.states|
    && EpochOf(s.shared, rd) in s.history && EpochOf(s.shared, rd) != Now(s)
  }

  lemma OnlyFailsSame(a: Round)
    ensures OnlyFails(a, a)
  {
  }

  lemma StaysPast(k: Config, s: System, rd: nat, a: Action)
    requires Inv(s) && Past(s, rd)
    ensures Past(Step(k, s, a), rd)
  {
    StepOk(k, s, a);
    StepGrows(k, s, a);
    hide React, Turned, Opened, Inv;
  }

  lemma StepOnlyFails(k: Config, s: System, rd: nat, a: Action)
    requires Past(s, rd)
    ensures var t := Step(k, s, a);
            rd < |t.shared.rounds| && OnlyFails(s.shared.rounds[rd], t.shared.rounds[rd])
  {
    OnlyFailsSame(s.shared.rounds[rd]);
    hide React, Turned, OnlyFails;
    match a {
      case OfRequest(r, event) =>
        if r < |s.requests| && Applies(s, s.requests[r]) { ReactOnlyFails(k, s, s.requests[r], event, rd); }
      case OfRound(turned, turn) =>
        if turned < |s.shared.rounds| && s.shared.rounds[turned].owner < |s.shared.states| {
          TurnedOnlyFails(s.shared, rd, turned, Current(s, EpochOf(s.shared, turned)), turn);
        }
      case _ =>
    }
  }

  lemma OnlyFailsOn(a: Round, b: Round, c: Round)
    requires OnlyFails(a, b) && OnlyFails(b, c)
    ensures OnlyFails(a, c)
  {
  }

  /** Once the session has moved to another epoch, over every continuation: for a round of an earlier one neither
      refreshSession nor onUnauthorized is called again, and if it was not over it can only end as failed. */
  lemma {:induction false} PastRoundsOnlyFail(k: Config, s: System, rd: nat, actions: seq<Action>)
    requires Inv(s) && Past(s, rd)
    ensures var t := Run(k, s, actions);
            rd < |t.shared.rounds| && OnlyFails(s.shared.rounds[rd], t.shared.rounds[rd])
    decreases |actions|
  {
    OnlyFailsSame(s.shared.rounds[rd]);
    hide Inv, Step, OnlyFails;
    if actions != [] {
      var t := Step(k, s, actions[0]);
      StepOk(k, s, actions[0]);
      StaysPast(k, s, rd, actions[0]);
      StepOnlyFails(k, s, rd, actions[0]);
      PastRoundsOnlyFail(k, t, rd, actions[1..]);
      OnlyFailsOn(s.shared.rounds[rd], t.shared.rounds[rd], Run(k, t, actions[1..]).shared.rounds[rd]);
    }
  }
}
