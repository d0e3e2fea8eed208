/** What the recovery protocol guarantees over every interleaving: single flight, session isolation, harmless
    cancellation and bounded work. */
module AuthSafety {
  import opened Optional
  import opened AuthProtocol

  // ----- the invariant -----

  predicate Fulfilled(r: Refresh) {
    r == Settled(Renewed) || r == Settled(Expired)
  }

  predicate RefreshCountOk(round: Round) {
    match round.refresh
    case Absent => round.refreshCalls == 0
    case Queued => round.refreshCalls == 0
    case Calling => round.refreshCalls == 1
    case Closing(o) => round.refreshCalls == 1 || (round.refreshCalls == 0 && o == Failed)
    case Settled(o) => round.refreshCalls == 1 || (round.refreshCalls == 0 && o == Failed)
  }

  predicate NoticeCountOk(round: Round) {
    && (round.notice != Silent ==> Fulfilled(round.refresh))
    && round.noticeCalls <= (if round.notice == Silent || round.notice == NoticeQueued then 0 else 1)
  }

  /** A round is the one its epoch state hands out exactly until it has settled. */
  predicate RoundOk(sh: Shared, rd: nat)
    requires rd < |sh.rounds|
  {
    var round := sh.rounds[rd];
    && round.owner < |sh.states|
    && (round.refresh.Settled? <==> sh.states[round.owner].round != rd)
    && RefreshCountOk(round) && NoticeCountOk(round)
  }

  /** Only the current state can have the present epoch. */
  predicate StateOk(history: seq<Epoch>, sh: Shared, i: nat)
    requires i < |sh.states| && history != []
  {
    && sh.states[i].epoch in history
    && sh.states[i].round < |sh.rounds|
    && sh.rounds[sh.states[i].round].owner == i
    && (sh.states[i].epoch == history[|history| - 1] ==> sh.current == Some(i))
  }

  predicate SharedOk(history: seq<Epoch>, sh: Shared)
    requires history != []
  {
    && (sh.current.Some? ==> sh.current.value < |sh.states|)
    && (forall i :: 0 <= i < |sh.states| ==> StateOk(history, sh, i))
    && (forall i, j :: 0 <= i < j < |sh.states| ==> sh.states[i].epoch != sh.states[j].epoch)
    && (forall rd :: 0 <= rd < |sh.rounds| ==> RoundOk(sh, rd))
  }

  predicate NeverReused(history: seq<Epoch>) {
    history != [] && forall i, j :: 0 <= i < j < |history| ==> history[i] != history[j]
  }

  predicate SnapshotOk(sh: Shared, t: Snapshot) {
    && t.state < |sh.states| && sh.states[t.state].epoch == t.epoch
    && t.round < |sh.rounds| && sh.rounds[t.round].owner == t.state
  }

  /** A send is paid for by the first attempt, by the one recovery or by a retry. */
  predicate WorkOk(q: Request) {
    && q.sends <= q.retries + (if q.recovered then 1 else 0)
         + (if q.phase.AwaitHeaders? || q.phase.Ready? || q.phase.Backoff? || q.phase.Recovered? || q.phase.AwaitRefresh?
            then 0 else 1)
    && q.retries <= (if q.call.kind.Http? then q.call.maxRetries else 0)
    && (q.phase.AwaitRefresh? || q.phase.Recovered? || q.phase.AwaitNotice? ==> q.recovered)
    && (q.recovered || q.phase.AwaitHeaders? ==> q.auth.Some?)
    && (q.call.kind.Sse? ==> !q.phase.Backoff?)
  }

  /** What a request relies on. */
  predicate AuthOk(history: seq<Epoch>, sh: Shared, q: Request) {
    q.auth.Some? ==>
      var t := q.auth.value;
      && SnapshotOk(sh, t)
      && (q.phase.AwaitHeaders? ==> q.phase.calledAt < |history| && history[q.phase.calledAt] == t.epoch)
      && (!q.phase.AwaitHeaders? && !q.phase.Done? ==> q.headers == Some(t.epoch))
      && (q.phase.AwaitRefresh? ==> sh.rounds[t.round].refresh != Absent)
      && (q.recovered && !q.phase.AwaitRefresh? && !q.phase.Done? ==> Fulfilled(sh.rounds[t.round].refresh))
  }

  predicate RequestOk(history: seq<Epoch>, sh: Shared, q: Request) {
    WorkOk(q) && AuthOk(history, sh, q)
  }

  predicate EntryOk(e: Entry) {
    match e
    case Sent(now, headers, captured) => now == captured && headers == Some(captured)
    case Delivered(now, captured) => now == captured
  }

  predicate Inv(s: System) {
    && NeverReused(s.history)
    && SharedOk(s.history, s.shared)
    && (forall r :: 0 <= r < |s.requests| ==> RequestOk(s.history, s.shared, s.requests[r]))
    && (forall i :: 0 <= i < |s.log| ==> EntryOk(s.log[i]))
  }

  /** Nothing a request relies on is ever taken back. */
  predicate Grows(a: Shared, b: Shared) {
    && |a.states| <= |b.states| && |a.rounds| <= |b.rounds|
    && (forall i :: 0 <= i < |a.states| ==> b.states[i].epoch == a.states[i].epoch)
    && (forall rd :: 0 <= rd < |a.rounds| ==>
          && b.rounds[rd].owner == a.rounds[rd].owner
          && (a.rounds[rd].refresh != Absent ==> b.rounds[rd].refresh != Absent)
          && (a.rounds[rd].refresh.Settled? ==>
                b.rounds[rd].refresh == a.rounds[rd].refresh && b.rounds[rd].refreshCalls == a.rounds[rd].refreshCalls))
  }

  lemma RequestKept(history: seq<Epoch>, later: seq<Epoch>, a: Shared, b: Shared, q: Request)
    requires RequestOk(history, a, q) && Grows(a, b) && history <= later
    ensures RequestOk(later, b, q)
  {
  }

  // ----- the coordinator keeps it -----

  lemma CapturedOk(history: seq<Epoch>, sh: Shared)
    requires NeverReused(history) && SharedOk(history, sh)
    ensures var b := Captured(sh, history[|history| - 1]);
            SharedOk(history, b) && Grows(sh, b) && SnapshotOk(b, SnapshotOf(b, history[|history| - 1]))
  {
    assert RefreshCountOk(NewRound(|sh.states|)) && NoticeCountOk(NewRound(|sh.states|));
    hide RefreshCountOk, NoticeCountOk;
    var now := history[|history| - 1];
    var b := Captured(sh, now);
    assert forall i :: 0 <= i < |sh.states| ==> StateOk(history, sh, i);
    assert forall rd :: 0 <= rd < |sh.rounds| ==> RoundOk(sh, rd);
    if b != sh {
      forall i | 0 <= i < |sh.states| ensures sh.states[i].epoch != now { assert StateOk(history, sh, i); }
      forall i | 0 <= i < |b.states| ensures StateOk(history, b, i) {
        if i < |sh.states| {
          assert StateOk(history, sh, i) && b.states[i] == sh.states[i];
          assert b.rounds[sh.states[i].round] == sh.rounds[sh.states[i].round];
        }
      }
      forall rd | 0 <= rd < |b.rounds| ensures RoundOk(b, rd) {
        if rd < |sh.rounds| { assert RoundOk(sh, rd); }
      }
    } else {
      assert StateOk(history, sh, sh.current.value);
    }
  }

  /** Changing one round in place. */
  lemma SetRoundOk(history: seq<Epoch>, sh: Shared, rd: nat, round: Round)
    requires history != [] && SharedOk(history, sh) && rd < |sh.rounds|
    requires round.owner == sh.rounds[rd].owner && RefreshCountOk(round) && NoticeCountOk(round)
    requires round.refresh.Settled? <==> sh.rounds[rd].refresh.Settled?
    requires round.refresh == Absent ==> sh.rounds[rd].refresh == Absent
    requires sh.rounds[rd].refresh.Settled? ==>
               round.refresh == sh.rounds[rd].refresh && round.refreshCalls == sh.rounds[rd].refreshCalls
    ensures SharedOk(history, SetRound(sh, rd, round)) && Grows(sh, SetRound(sh, rd, round))
  {
    hide RefreshCountOk, NoticeCountOk;
    var b := SetRound(sh, rd, round);
    assert RoundOk(sh, rd);
    forall i | 0 <= i < |b.rounds| ensures RoundOk(b, i) { assert RoundOk(sh, i); }
    forall i | 0 <= i < |b.states| ensures StateOk(history, b, i) { assert StateOk(history, sh, i); }
  }

  lemma RefreshAskedOk(history: seq<Epoch>, sh: Shared, rd: nat)
    requires history != [] && SharedOk(history, sh) && rd < |sh.rounds|
    ensures var b := RefreshAsked(sh, rd);
            SharedOk(history, b) && Grows(sh, b) && b.rounds[rd].refresh != Absent
  {
    var b := RefreshAsked(sh, rd);
    assert RoundOk(sh, rd);
    if b != sh { SetRoundOk(history, sh, rd, b.rounds[rd]); }
  }

  lemma NoticeAskedOk(history: seq<Epoch>, sh: Shared, rd: nat, canNotify: bool)
    requires history != [] && SharedOk(history, sh) && rd < |sh.rounds| && Fulfilled(sh.rounds[rd].refresh)
    ensures var b := NoticeAsked(sh, rd, canNotify);
            SharedOk(history, b) && Grows(sh, b)
  {
    var b := NoticeAsked(sh, rd, canNotify);
    assert RoundOk(sh, rd);
    if b != sh { SetRoundOk(history, sh, rd, b.rounds[rd]); }
  }

  lemma FinishedOk(history: seq<Epoch>, sh: Shared, rd: nat)
    requires history != [] && SharedOk(history, sh) && rd < |sh.rounds|
    requires sh.rounds[rd].owner < |sh.states| && sh.rounds[rd].refresh.Closing?
    ensures SharedOk(history, Finished(sh, rd)) && Grows(sh, Finished(sh, rd))
  {
    var b := Finished(sh, rd);
    var owner := sh.rounds[rd].owner;
    assert RoundOk(sh, rd) && StateOk(history, sh, owner);
    assert sh.states[owner].round == rd;
    forall i | 0 <= i < |b.rounds| ensures RoundOk(b, i) {
      if i < |sh.rounds| { assert RoundOk(sh, i); }
    }
    forall i | 0 <= i < |b.states| ensures StateOk(history, b, i) { assert StateOk(history, sh, i); }
  }

  lemma TurnedOk(history: seq<Epoch>, sh: Shared, rd: nat, live: bool, turn: RoundEvent)
    requires history != [] && SharedOk(history, sh) && rd < |sh.rounds| && sh.rounds[rd].owner < |sh.states|
    ensures SharedOk(history, Turned(sh, rd, live, turn)) && Grows(sh, Turned(sh, rd, live, turn))
  {
    assert RoundOk(sh, rd) && Grows(sh, sh);
    hide SharedOk, Finished, Grows;
    var b := Turned(sh, rd, live, turn);
    if turn.FinishRefresh? && sh.rounds[rd].refresh.Closing? {
      FinishedOk(history, sh, rd);
    } else if b != sh {
      SetRoundOk(history, sh, rd, b.rounds[rd]);
    }
  }

  // ----- requests keep it -----

  /** What a step of one request owes. */
  predicate EffectOk(s: System, e: Effect)
    requires s.history != []
  {
    && SharedOk(s.history, e.shared) && Grows(s.shared, e.shared) && RequestOk(s.history, e.shared, e.request)
    && forall i :: 0 <= i < |e.entries| ==> EntryOk(e.entries[i])
  }

  lemma HeadersArriveOk(k: Config, s: System, q: Request, readAt: nat, valid: bool)
    requires NeverReused(s.history) && SharedOk(s.history, s.shared) && RequestOk(s.history, s.shared, q)
    ensures EffectOk(s, React(k, s, q, HeadersArrive(readAt, valid)))
  {
    hide SharedOk;
    if q.phase.AwaitHeaders? && valid && q.phase.calledAt <= readAt < |s.history| && Current(s, q.auth.value.epoch) {
      assert q.phase.calledAt == |s.history| - 1 == readAt;
    }
  }

  lemma JudgedOk(k: Config, s: System, q: Request, verdict: Verdict)
    requires NeverReused(s.history) && SharedOk(s.history, s.shared) && RequestOk(s.history, s.shared, q) && q.phase.Judging?
    ensures EffectOk(s, Judged(k, s, q, verdict))
  {
    hide SharedOk, RefreshAsked, NoticeAsked, Fulfilled;
    var e := Judged(k, s, q, verdict);
    if e.request.phase.AwaitRefresh? {
      RefreshAskedOk(s.history, s.shared, q.auth.value.round);
    } else if e.request.phase.AwaitNotice? {
      NoticeAskedOk(s.history, s.shared, q.auth.value.round, k.canNotify);
      RequestKept(s.history, s.history, s.shared, e.shared, q);
    }
  }

  lemma RefreshedOk(k: Config, s: System, q: Request)
    requires NeverReused(s.history) && SharedOk(s.history, s.shared) && RequestOk(s.history, s.shared, q)
    requires q.phase.AwaitRefresh? && s.shared.rounds[q.auth.value.round].refresh.Settled?
    ensures EffectOk(s, Refreshed(k, s, q))
  {
    hide SharedOk, RefreshAsked, NoticeAsked;
    var e := Refreshed(k, s, q);
    if e.request.phase.AwaitNotice? {
      NoticeAskedOk(s.history, s.shared, q.auth.value.round, k.canNotify);
      RequestKept(s.history, s.history, s.shared, e.shared, q.(phase := Recovered));
    }
  }

  predicate Quiet(event: RequestEvent) {
    !event.HeadersArrive? && !event.Judge? && !event.ResumeRefresh?
  }

  /** The steps that leave the coordinator alone. */
  lemma QuietWork(k: Config, s: System, q: Request, event: RequestEvent)
    requires s.history != [] && Applies(s, q) && WorkOk(q) && Quiet(event)
    ensures WorkOk(React(k, s, q, event).request) && React(k, s, q, event).shared == s.shared
  {
    hide Judged, Refreshed;
  }

  lemma QuietAuth(k: Config, s: System, q: Request, event: RequestEvent)
    requires s.history != [] && Applies(s, q) && RequestOk(s.history, s.shared, q) && Quiet(event)
    ensures var e := React(k, s, q, event);
            AuthOk(s.history, s.shared, e.request) && forall i :: 0 <= i < |e.entries| ==> EntryOk(e.entries[i])
  {
    hide Judged, Refreshed, Fulfilled, SnapshotOk;
  }

  lemma QuietOk(k: Config, s: System, q: Request, event: RequestEvent)
    requires NeverReused(s.history) && SharedOk(s.history, s.shared) && RequestOk(s.history, s.shared, q) && Quiet(event)
    ensures Applies(s, q) && EffectOk(s, React(k, s, q, event))
  {
    assert Applies(s, q);
    hide SharedOk, React, AuthOk, WorkOk, EntryOk;
    QuietWork(k, s, q, event);
    QuietAuth(k, s, q, event);
  }

  lemma ReactOk(k: Config, s: System, q: Request, event: RequestEvent)
    requires NeverReused(s.history) && SharedOk(s.history, s.shared) && RequestOk(s.history, s.shared, q)
    ensures Applies(s, q) && EffectOk(s, React(k, s, q, event))
  {
    assert Applies(s, q);
    assert EffectOk(s, Effect(q, s.shared, []));
    hide SharedOk, Judged, Refreshed, EffectOk, RequestOk;
    if event.HeadersArrive? {
      HeadersArriveOk(k, s, q, event.readAt, event.valid);
    } else if event.Judge? && q.phase.Judging? {
      JudgedOk(k, s, q, event.verdict);
    } else if event.ResumeRefresh? && q.phase.AwaitRefresh? && q.auth.Some? && s.shared.rounds[q.auth.value.round].refresh.Settled? {
      RefreshedOk(k, s, q);
    } else if Quiet(event) {
      QuietOk(k, s, q, event);
    }
  }

  lemma OpenedOk(s: System, call: Call)
    requires Inv(s)
    ensures Inv(Opened(s, call))
  {
    assert Grows(s.shared, s.shared);
    hide SharedOk, Captured, Grows;
    var t := Opened(s, call);
    if call.authenticated && s.readable {
      CapturedOk(s.history, s.shared);
    }
    forall r | 0 <= r < |t.requests| ensures RequestOk(t.history, t.shared, t.requests[r]) {
      if r < |s.requests| { RequestKept(s.history, t.history, s.shared, t.shared, s.requests[r]); }
    }
  }

  lemma CancelKept(history: seq<Epoch>, sh: Shared, q: Request)
    requires RequestOk(history, sh, q)
    ensures RequestOk(history, sh, q.(canceled := true))
  {
  }

  lemma EpochChanged(history: seq<Epoch>, e: Epoch, sh: Shared)
    requires NeverReused(history) && SharedOk(history, sh) && e !in history
    ensures SharedOk(history + [e], sh)
  {
    hide RoundOk;
    forall i | 0 <= i < |sh.states| ensures StateOk(history + [e], sh, i) { assert StateOk(history, sh, i); }
  }

  lemma StepOk(k: Config, s: System, a: Action)
    requires Inv(s)
    ensures Inv(Step(k, s, a))
  {
    assert Grows(s.shared, s.shared);
    hide SharedOk, Grows, React, Turned, Opened, RequestOk;
    var t := Step(k, s, a);
    match a {
      case ChangeEpoch(e) =>
        if e !in s.history {
          assert SharedOk(t.history, t.shared) by { EpochChanged(s.history, e, s.shared); }
          forall r | 0 <= r < |t.requests| ensures RequestOk(t.history, t.shared, t.requests[r]) {
            RequestKept(s.history, t.history, s.shared, t.shared, s.requests[r]);
          }
        }
      case SetReadable(b) =>
      case Cancel(r) =>
        if r < |s.requests| {
          CancelKept(s.history, s.shared, s.requests[r]);
        }
      case Start(call) => OpenedOk(s, call);
      case OfRequest(r, event) =>
        if r < |s.requests| {
          ReactOk(k, s, s.requests[r], event);
          forall i | 0 <= i < |t.requests| ensures RequestOk(t.history, t.shared, t.requests[i]) {
            if i != r { RequestKept(s.history, t.history, s.shared, t.shared, s.requests[i]); }
          }
        }
      case OfRound(rd, turn) =>
        if rd < |s.shared.rounds| && s.shared.rounds[rd].owner < |s.shared.states| {
          TurnedOk(s.history, s.shared, rd, Current(s, s.shared.states[s.shared.rounds[rd].owner].epoch), turn);
          forall i | 0 <= i < |t.requests| ensures RequestOk(t.history, t.shared, t.requests[i]) {
            RequestKept(s.history, t.history, s.shared, t.shared, s.requests[i]);
          }
        }
    }
  }

  lemma {:induction false} RunOk(k: Config, s: System, actions: seq<Action>)
    requires Inv(s)
    ensures Inv(Run(k, s, actions))
    decreases |actions|
  {
    hide Inv, Step;
    if actions != [] {
      StepOk(k, s, actions[0]);
      RunOk(k, Step(k, s, actions[0]), actions[1..]);
    }
  }

  lemma InitialOk(e: Epoch)
    ensures Inv(Initial(e))
  {
  }

  // ----- single flight -----

  predicate InFlight(r: Refresh) { r == Queued || r == Calling || r.Closing? }

  function EpochOf(sh: Shared, rd: nat): Epoch
    requires rd < |sh.rounds| && sh.rounds[rd].owner < |sh.states|
  {
    sh.states[sh.rounds[rd].owner].epoch
  }

  /** Over every interleaving a round calls refreshSession at most once and onUnauthorized at most once, the
      latter only if its refresh fulfilled, and no epoch has two refreshes in flight. */
  lemma SingleFlight(k: Config, e: Epoch, actions: seq<Action>)
    ensures var sh := Run(k, Initial(e), actions).shared;
            && (forall rd :: 0 <= rd < |sh.rounds| ==>
                  && sh.rounds[rd].refreshCalls <= 1 && sh.rounds[rd].noticeCalls <= 1
                  && (sh.rounds[rd].noticeCalls == 1 ==> Fulfilled(sh.rounds[rd].refresh) && sh.rounds[rd].refreshCalls == 1)
                  && sh.rounds[rd].owner < |sh.states|)
            && (forall i, j :: 0 <= i < j < |sh.rounds| && InFlight(sh.rounds[i].refresh) && InFlight(sh.rounds[j].refresh) ==>
                  EpochOf(sh, i) != EpochOf(sh, j))
  {
    hide Step, Run;
    InitialOk(e);
    RunOk(k, Initial(e), actions);
    var sh := Run(k, Initial(e), actions).shared;
    forall rd | 0 <= rd < |sh.rounds|
      ensures sh.rounds[rd].refreshCalls <= 1 && sh.rounds[rd].noticeCalls <= 1 && sh.rounds[rd].owner < |sh.states|
      ensures sh.rounds[rd].noticeCalls == 1 ==> Fulfilled(sh.rounds[rd].refresh) && sh.rounds[rd].refreshCalls == 1
    {
      assert RoundOk(sh, rd);
    }
    forall i, j | 0 <= i < j < |sh.rounds| && InFlight(sh.rounds[i].refresh) && InFlight(sh.rounds[j].refresh)
      ensures EpochOf(sh, i) != EpochOf(sh, j)
    {
      assert RoundOk(sh, i) && RoundOk(sh, j);
    }
  }

  lemma StepGrows(k: Config, s: System, a: Action)
    requires Inv(s)
    ensures Grows(s.shared, Step(k, s, a).shared)
  {
    assert Grows(s.shared, s.shared);
    hide SharedOk, React, Turned, Captured, RequestOk, Grows;
    match a {
      case Start(call) => if call.authenticated && s.readable { CapturedOk(s.history, s.shared); }
      case OfRequest(r, event) =>
        if r < |s.requests| { ReactOk(k, s, s.requests[r], event); }
      case OfRound(rd, turn) =>
        if rd < |s.shared.rounds| && s.shared.rounds[rd].owner < |s.shared.states| {
          TurnedOk(s.history, s.shared, rd, Current(s, EpochOf(s.shared, rd)), turn);
        }
      case _ =>
    }
  }

  /** A settled round is final: whoever waits for it, however late, meets the same answer, and it never calls
      refreshSession again. */
  lemma {:induction false} SettledIsFinal(k: Config, s: System, actions: seq<Action>)
    requires Inv(s)
    ensures Grows(s.shared, Run(k, s, actions).shared)
    decreases |actions|
  {
    hide Inv, Step;
    if actions != [] {
      StepOk(k, s, actions[0]);
      StepGrows(k, s, actions[0]);
      SettledIsFinal(k, Step(k, s, actions[0]), actions[1..]);
    }
  }

  /** Its three steps settle any round whose refresh was asked for. */
  lemma RoundSettles(k: Config, s: System, rd: nat, result: Outcome)
    requires s.history != [] && rd < |s.shared.rounds| && RoundOk(s.shared, rd) && s.shared.rounds[rd].refresh != Absent
    ensures var t := Run(k, s, [OfRound(rd, BeginRefresh), OfRound(rd, SettleRefresh(result)), OfRound(rd, FinishRefresh)]);
            && t.history == s.history && t.requests == s.requests
            && rd < |t.shared.rounds| && t.shared.rounds[rd].refresh.Settled?
  {
    hide React, Captured, Opened;
    var a, b, c := OfRound(rd, BeginRefresh), OfRound(rd, SettleRefresh(result)), OfRound(rd, FinishRefresh);
    var s1 := Step(k, s, a);
    assert s1.shared.rounds[rd].refresh != Queued && s1.shared.rounds[rd].refresh != Absent;
    var s2 := Step(k, s1, b);
    assert s2.shared.rounds[rd].refresh.Closing? || s2.shared.rounds[rd].refresh.Settled?;
    var s3 := Step(k, s2, c);
    assert s3.shared.rounds[rd].refresh.Settled?;
    hide Step;
    assert [a, b, c][1..] == [b, c] && [b, c][1..] == [c] && [c][1..] == [];
    assert Run(k, s, [a, b, c]) == Run(k, s1, [b, c]) == Run(k, s2, [c]) == Run(k, s3, []);
  }

  /** A request waiting for the refresh can always be brought to its answer, by the three steps of its round. */
  lemma WaiterResumes(k: Config, s: System, r: nat, result: Outcome)
    requires Inv(s) && r < |s.requests| && s.requests[r].phase.AwaitRefresh?
    ensures s.requests[r].auth.Some?
    ensures var rd := s.requests[r].auth.value.round;
            var t := Run(k, s, [OfRound(rd, BeginRefresh), OfRound(rd, SettleRefresh(result)), OfRound(rd, FinishRefresh)]);
            && t.history == s.history && t.requests == s.requests && rd < |t.shared.rounds| && t.shared.rounds[rd].refresh.Settled?
            && !React(k, t, t.requests[r], ResumeRefresh).request.phase.AwaitRefresh?
  {
    hide Run, NoticeAsked;
    assert RequestOk(s.history, s.shared, s.requests[r]);
    var rd := s.requests[r].auth.value.round;
    assert RoundOk(s.shared, rd);
    RoundSettles(k, s, rd, result);
  }

  // ----- session isolation -----

  /** Over every interleaving each authenticated send happens in the epoch its request captured, with headers
      read in that epoch, and each response or message is handed over in that epoch. */
  lemma SessionIsolation(k: Config, e: Epoch, actions: seq<Action>)
    ensures var log := Run(k, Initial(e), actions).log;
            forall i :: 0 <= i < |log| ==>
              match log[i]
              case Sent(now, headers, captured) => now == captured && headers == Some(captured)
              case Delivered(now, captured) => now == captured
  {
    hide Step, Run;
    InitialOk(e);
    RunOk(k, Initial(e), actions);
    var log := Run(k, Initial(e), actions).log;
    assert forall i :: 0 <= i < |log| ==> EntryOk(log[i]);
  }

  function SentEntries(log: seq<Entry>): nat {
    if log == [] then 0 else (if log[0].Sent? then 1 else 0) + SentEntries(log[1..])
  }

  /** The sends of all authenticated requests together. */
  function AuthSends(requests: seq<Request>): nat {
    if requests == [] then 0 else (if requests[0].auth.Some? then requests[0].sends else 0) + AuthSends(requests[1..])
  }

  lemma {:induction false} SentConcat(a: seq<Entry>, b: seq<Entry>)
    ensures SentEntries(a + b) == SentEntries(a) + SentEntries(b)
  {
    if a == [] {
      assert a + b == b;
    } else {
      SentConcat(a[1..], b);
      assert (a + b)[1..] == a[1..] + b;
    }
  }

  lemma {:induction false} SendsUpdate(requests: seq<Request>, i: nat, q: Request)
    requires i < |requests| && q.auth.Some? == requests[i].auth.Some?
    ensures q.auth.Some? ==> AuthSends(requests[i := q]) + requests[i].sends == AuthSends(requests) + q.sends
    ensures q.auth.None? ==> AuthSends(requests[i := q]) == AuthSends(requests)
  {
    if i > 0 {
      SendsUpdate(requests[1..], i - 1, q);
      assert requests[i := q][1..] == requests[1..][i - 1 := q];
    } else {
      assert requests[0 := q][1..] == requests[1..];
    }
  }

  lemma {:induction false} SendsAppend(requests: seq<Request>, q: Request)
    requires q.sends == 0
    ensures AuthSends(requests + [q]) == AuthSends(requests)
  {
    if requests == [] {
      assert requests + [q] == [q] && [q][1..] == [];
    } else {
      SendsAppend(requests[1..], q);
      assert (requests + [q])[1..] == requests[1..] + [q];
    }
  }

  lemma ReactLogs(k: Config, s: System, q: Request, event: RequestEvent)
    requires s.history != [] && Applies(s, q)
    ensures var e := React(k, s, q, event);
            && e.request.auth == q.auth
            && SentEntries(e.entries) == (if q.auth.Some? then e.request.sends - q.sends else 0)
  {
    hide RefreshAsked, NoticeAsked, Active;
  }

  /** The log misses nothing: over every run it holds one entry for each send of an authenticated request. */
  lemma {:induction false} EverySendIsLogged(k: Config, s: System, actions: seq<Action>)
    requires SentEntries(s.log) == AuthSends(s.requests)
    ensures var t := Run(k, s, actions);
            SentEntries(t.log) == AuthSends(t.requests)
    decreases |actions|
  {
    hide React, Turned, Captured, AuthSends, SentEntries;
    if actions != [] {
      var t := Step(k, s, actions[0]);
      match actions[0] {
        case Cancel(r) => if r < |s.requests| { SendsUpdate(s.requests, r, s.requests[r].(canceled := true)); }
        case Start(call) => if s.history != [] { SendsAppend(s.requests, t.requests[|s.requests|]); }
        case OfRequest(r, event) =>
          if s.history != [] && r < |s.requests| && Applies(s, s.requests[r]) {
            var e := React(k, s, s.requests[r], event);
            ReactLogs(k, s, s.requests[r], event);
            SendsUpdate(s.requests, r, e.request);
            SentConcat(s.log, e.entries);
          }
        case _ =>
      }
      EverySendIsLogged(k, t, actions[1..]);
    }
  }

  /** Whatever happens in a round of an earlier epoch, the present epoch's state, its round and all requests stay
      as they are. */
  lemma OldRoundsAreHarmless(k: Config, s: System, rd: nat, turn: RoundEvent, i: nat)
    requires Inv(s) && rd < |s.shared.rounds| && i < |s.shared.states|
    requires s.shared.rounds[rd].owner != i
    ensures var t := Step(k, s, OfRound(rd, turn));
            && s.shared.states[i].round < |s.shared.rounds| <= |t.shared.rounds| && i < |t.shared.states|
            && t.shared.current == s.shared.current && t.requests == s.requests && t.log == s.log
            && t.shared.states[i] == s.shared.states[i]
            && t.shared.rounds[s.shared.states[i].round] == s.shared.rounds[s.shared.states[i].round]
  {
    assert StateOk(s.history, s.shared, i);
    assert RoundOk(s.shared, rd);
  }

  // ----- cancellation -----

  /** A canceled request changes nothing but itself. */
  lemma CanceledIsQuiet(k: Config, s: System, q: Request, event: RequestEvent)
    requires q.canceled && s.history != [] && Applies(s, q)
    ensures var e := React(k, s, q, event);
            e.shared == s.shared && e.entries == [] && e.request.canceled
  {
  }

  /** The same system but for one request, which is canceled in the second. */
  predicate AgreeExcept(s: System, t: System, r: nat) {
    && s.history == t.history && s.readable == t.readable && s.shared == t.shared && s.log == t.log
    && |s.requests| == |t.requests| && r < |s.requests| && t.requests[r].canceled
    && forall i :: 0 <= i < |s.requests| && i != r ==> s.requests[i] == t.requests[i]
  }

  function Without(actions: seq<Action>, r: nat): seq<Action> {
    if actions == [] then []
    else (if actions[0].OfRequest? && actions[0].request == r then [] else [actions[0]]) + Without(actions[1..], r)
  }

  /** A request's step depends on the coordinator and the session, not on other requests. */
  lemma ReactReads(k: Config, s: System, t: System, q: Request, event: RequestEvent)
    requires s.history == t.history && s.readable == t.readable && s.shared == t.shared && s.history != [] && Applies(s, q)
    ensures React(k, s, q, event) == React(k, t, q, event)
  {
    hide RefreshAsked, NoticeAsked;
  }

  lemma AgreeStep(k: Config, s: System, t: System, r: nat, a: Action)
    requires AgreeExcept(s, t, r)
    ensures if a.OfRequest? && a.request == r then AgreeExcept(s, Step(k, t, a), r)
            else AgreeExcept(Step(k, s, a), Step(k, t, a), r)
  {
    hide React, Turned, Captured;
    if a.OfRequest? && s.history != [] && a.request < |s.requests| {
      if a.request == r {
        if Applies(t, t.requests[r]) {
          CanceledIsQuiet(k, t, t.requests[r], a.event);
          assert t.log + [] == t.log;
        }
      } else if Applies(s, s.requests[a.request]) {
        ReactReads(k, s, t, s.requests[a.request], a.event);
      }
    }
  }

  /** Cancelling one request is, for all others, for the coordinator and for the outside, the same as that
      request taking no further step: over any continuation they see no difference. */
  lemma {:induction false} CancellationIsPrivate(k: Config, s: System, t: System, r: nat, actions: seq<Action>)
    requires AgreeExcept(s, t, r)
    ensures AgreeExcept(Run(k, s, Without(actions, r)), Run(k, t, actions), r)
    decreases |actions|
  {
    hide Step, AgreeExcept;
    if actions != [] {
      var a, rest := actions[0], actions[1..];
      AgreeStep(k, s, t, r, a);
      if a.OfRequest? && a.request == r {
        assert Without(actions, r) == [] + Without(rest, r) == Without(rest, r);
        CancellationIsPrivate(k, s, Step(k, t, a), r, rest);
      } else {
        assert Without(actions, r)[1..] == Without(rest, r);
        CancellationIsPrivate(k, Step(k, s, a), Step(k, t, a), r, rest);
      }
    }
  }

  lemma CancelOneWaiter(k: Config, s: System, r: nat, actions: seq<Action>)
    requires s.history != [] && r < |s.requests|
    ensures AgreeExcept(Run(k, s, Without(actions, r)), Run(k, s, [Cancel(r)] + actions), r)
  {
    var t := Step(k, s, Cancel(r));
    assert ([Cancel(r)] + actions)[1..] == actions;
    assert Run(k, s, [Cancel(r)] + actions) == Run(k, t, actions);
    hide Run, Without;
    CancellationIsPrivate(k, s, t, r, actions);
  }

  // ----- bounded work -----

  /** No call sends more than once for itself, once for its recovery and once for each retry. */
  lemma BoundedSends(k: Config, e: Epoch, actions: seq<Action>, r: nat)
    requires r < |Run(k, Initial(e), actions).requests|
    ensures var q := Run(k, Initial(e), actions).requests[r];
            q.sends <= 2 + (if q.call.kind.Http? then q.call.maxRetries else 0)
  {
    hide Step, Run;
    InitialOk(e);
    RunOk(k, Initial(e), actions);
    var s := Run(k, Initial(e), actions);
    assert RequestOk(s.history, s.shared, s.requests[r]);
  }

  /** The recovery still unused and the retries left. */
  function Credit(q: Request): int {
    (if q.recovered then 0 else 1) + (if q.call.kind.Http? then q.call.maxRetries else 0) - q.retries
  }

  /** How far the present attempt still is from its end. */
  function Rank(p: Phase): nat {
    match p
    case AwaitRefresh => 12
    case Recovered => 11
    case AwaitHeaders(_) => 9
    case Ready => 8
    case Backoff => 8
    case Sending => 7
    case Converting => 6
    case Reading => 6
    case Judging(_) => 5
    case AwaitNotice => 4
    case Unrecovered(_) => 4
    case Done(_) => 0
  }

  function Measure(q: Request): int { 10 * Credit(q) + Rank(q.phase) }

  lemma JudgedFalls(k: Config, s: System, q: Request, verdict: Verdict)
    requires Applies(s, q) && WorkOk(q) && q.phase.Judging?
    ensures Measure(Judged(k, s, q, verdict).request) < Measure(q)
  {
    hide RefreshAsked, NoticeAsked, Active;
  }

  lemma RefreshedFalls(k: Config, s: System, q: Request)
    requires Applies(s, q) && WorkOk(q) && q.phase.AwaitRefresh? && s.shared.rounds[q.auth.value.round].refresh.Settled?
    ensures Measure(Refreshed(k, s, q).request) < Measure(q)
  {
    hide NoticeAsked, Active;
  }

  lemma DispatchedFalls(s: System, q: Request)
    requires s.history != [] && (q.phase.Ready? || q.phase.Backoff?)
    ensures Measure(Dispatched(s, q).request) < Measure(q) || Dispatched(s, q).request == Stop(q)
  {
    hide Active;
  }

  lemma AnsweredFalls(s: System, q: Request, answer: Answer)
    requires q.phase.Sending?
    ensures Measure(Answered(s, q, answer).request) < Measure(q) || Answered(s, q, answer).request == Stop(q)
  {
    hide Active;
  }

  lemma DecidedFalls(s: System, q: Request, grant: bool)
    requires q.phase.Unrecovered?
    ensures Measure(Decided(s, q, grant).request) < Measure(q) || Decided(s, q, grant).request == Stop(q)
  {
    hide Active;
  }

  lemma StopFalls(q: Request)
    requires !q.phase.Done?
    ensures Measure(Stop(q)) < Measure(q)
  {
  }

  /** The steps in between: sending, answers, waking up. */
  lemma AttemptFalls(k: Config, s: System, q: Request, event: RequestEvent)
    requires s.history != [] && Applies(s, q) && !event.Judge? && !event.ResumeRefresh?
    ensures var n := React(k, s, q, event).request;
            n == q || Measure(n) < Measure(q)
  {
    hide Judged, Refreshed, Active, Delivery, Dispatched, Answered, Decided, Stop;
    if !q.phase.Done? { StopFalls(q); }
    match event {
      case Send => if q.phase.Ready? || q.phase.Backoff? { DispatchedFalls(s, q); }
      case Respond(answer) => if q.phase.Sending? { AnsweredFalls(s, q, answer); }
      case Decide(grant) => if q.phase.Unrecovered? { DecidedFalls(s, q, grant); }
      case _ =>
    }
  }

  /** Each step that changes a call brings it nearer to its end. */
  lemma MeasureFalls(k: Config, s: System, q: Request, event: RequestEvent)
    requires s.history != [] && Applies(s, q) && WorkOk(q)
    ensures 0 <= Measure(q)
    ensures var n := React(k, s, q, event).request;
            n == q || Measure(n) < Measure(q)
  {
    assert 0 <= Measure(q);
    hide Judged, Refreshed, Measure, WorkOk;
    if event.Judge? {
      if q.phase.Judging? { JudgedFalls(k, s, q, event.verdict); }
    } else if event.ResumeRefresh? {
      if q.phase.AwaitRefresh? && q.auth.Some? && s.shared.rounds[q.auth.value.round].refresh.Settled? { RefreshedFalls(k, s, q); }
    } else {
      hide React;
      AttemptFalls(k, s, q, event);
    }
  }

  /** How many of the steps are steps of this request that change it. */
  function Moves(k: Config, s: System, r: nat, actions: seq<Action>): nat
    decreases |actions|
  {
    if actions == [] then 0
    else
      var t := Step(k, s, actions[0]);
      (if actions[0].OfRequest? && actions[0].request == r && r < |s.requests| && r < |t.requests|
          && t.requests[r] != s.requests[r] then 1 else 0)
      + Moves(k, t, r, actions[1..])
  }

  lemma StepKeepsMeasure(k: Config, s: System, r: nat, a: Action)
    requires Inv(s) && r < |s.requests|
    ensures var t := Step(k, s, a);
            && r < |t.requests| && 0 <= Measure(t.requests[r])
            && (if a.OfRequest? && a.request == r && t.requests[r] != s.requests[r]
                then Measure(t.requests[r]) < Measure(s.requests[r])
                else Measure(t.requests[r]) == Measure(s.requests[r]))
  {
    hide SharedOk, React, Turned, Captured;
    StepOk(k, s, a);
    var t := Step(k, s, a);
    assert RequestOk(s.history, s.shared, s.requests[r]);
    assert RequestOk(t.history, t.shared, t.requests[r]);
    if a.OfRequest? && a.request == r && Applies(s, s.requests[r]) { MeasureFalls(k, s, s.requests[r], a.event); }
  }

  /** Every call ends: in any run it can be moved on only as often as its measure allows. */
  lemma {:induction false} CallsEnd(k: Config, s: System, r: nat, actions: seq<Action>)
    requires Inv(s) && r < |s.requests|
    ensures Moves(k, s, r, actions) <= Measure(s.requests[r])
    decreases |actions|
  {
    assert RequestOk(s.history, s.shared, s.requests[r]);
    assert 0 <= Measure(s.requests[r]);
    hide Inv, Step, Measure;
    if actions != [] {
      StepOk(k, s, actions[0]);
      StepKeepsMeasure(k, s, r, actions[0]);
      CallsEnd(k, Step(k, s, actions[0]), r, actions[1..]);
    }
  }

  lemma ReadingStays(k: Config, s: System, q: Request, event: RequestEvent)
    requires s.history != [] && Applies(s, q) && (q.phase.Reading? || q.phase.Done?)
    ensures var n := React(k, s, q, event).request;
            (n.phase.Reading? || n.phase.Done?) && n.sends == q.sends
  {
    hide RefreshAsked, NoticeAsked;
  }

  /** Once a stream is being read, or a call is over, nothing is sent for it again. */
  lemma {:induction false} NothingSentOnceReading(k: Config, s: System, r: nat, actions: seq<Action>)
    requires r < |s.requests| && (s.requests[r].phase.Reading? || s.requests[r].phase.Done?)
    ensures var t := Run(k, s, actions);
            && r < |t.requests| && (t.requests[r].phase.Reading? || t.requests[r].phase.Done?)
            && t.requests[r].sends == s.requests[r].sends
    decreases |actions|
  {
    hide React, Turned, Captured;
    if actions != [] {
      var a := actions[0];
      if a.OfRequest? && a.request == r && s.history != [] && Applies(s, s.requests[r]) {
        ReadingStays(k, s, s.requests[r], a.event);
      }
      NothingSentOnceReading(k, Step(k, s, a), r, actions[1..]);
    }
  }
}
