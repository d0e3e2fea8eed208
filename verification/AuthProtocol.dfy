/** The browser's session recovery protocol: many requests share one refresh round per session epoch.
    sdk/frontend/src/http: auth/session.ts (the coordinator), auth/request.ts (one request's side of it),
    client/client.ts and sse/client.ts (the two request loops), error/cancellation.ts.
    Every stretch of code between two awaits is one step; steps of all requests, rounds and the environment
    interleave freely. A step that does not apply leaves the system as it is. */
module AuthProtocol {
  import opened Optional

  datatype Epoch = Text(text: string) | Number(number: int)

  // ----- the coordinator: auth/session.ts -----

  datatype Outcome = Renewed | Expired | Failed

  /** round.refresh: no promise yet, its first microtask queued, refreshSession called, its handler left with
      the finally callback still to run, or settled for the waiters. */
  datatype Refresh = Absent | Queued | Calling | Closing(outcome: Outcome) | Settled(outcome: Outcome)

  /** round.notification. */
  datatype Notice = Silent | NoticeQueued | NoticeCalling | NoticeSettled(ok: bool)

  /** A RefreshRound with the number of calls made of refreshSession and onUnauthorized. */
  datatype Round = Round(owner: nat, refresh: Refresh, refreshCalls: nat, notice: Notice, noticeCalls: nat)

  datatype EpochState = EpochState(epoch: Epoch, round: nat)

  /** What the coordinator holds; objects are named by their position. */
  datatype Shared = Shared(current: Option<nat>, states: seq<EpochState>, rounds: seq<Round>)

  datatype Snapshot = Snapshot(epoch: Epoch, state: nat, round: nat)

  function NewRound(owner: nat): Round { Round(owner, Absent, 0, Silent, 0) }

  predicate Linked(sh: Shared) {
    && (sh.current.Some? ==> sh.current.value < |sh.states|)
    && (forall i :: 0 <= i < |sh.states| ==> sh.states[i].round < |sh.rounds|)
    && (forall i :: 0 <= i < |sh.rounds| ==> sh.rounds[i].owner < |sh.states|)
  }

  /** capture: a new epoch state exactly when the epoch is not the current state's. */
  function Captured(sh: Shared, now: Epoch): Shared {
    if sh.current.Some? && sh.current.value < |sh.states| && sh.states[sh.current.value].epoch == now then sh
    else Shared(Some(|sh.states|), sh.states + [EpochState(now, |sh.rounds|)], sh.rounds + [NewRound(|sh.states|)])
  }

  function SnapshotOf(sh: Shared, now: Epoch): Snapshot
    requires sh.current.Some? && sh.current.value < |sh.states|
  {
    Snapshot(now, sh.current.value, sh.states[sh.current.value].round)
  }

  function SetRound(sh: Shared, rd: nat, round: Round): Shared
    requires rd < |sh.rounds|
  {
    sh.(rounds := sh.rounds[rd := round])
  }

  /** refresh: the first caller in a round creates the shared promise. */
  function RefreshAsked(sh: Shared, rd: nat): Shared
    requires rd < |sh.rounds|
  {
    var round := sh.rounds[rd];
    if round.refresh == Absent then SetRound(sh, rd, round.(refresh := Queued)) else sh
  }

  /** notify: likewise, if there is an onUnauthorized. */
  function NoticeAsked(sh: Shared, rd: nat, canNotify: bool): Shared
    requires rd < |sh.rounds|
  {
    var round := sh.rounds[rd];
    if canNotify && round.notice == Silent then SetRound(sh, rd, round.(notice := NoticeQueued)) else sh
  }

  datatype RoundEvent = BeginRefresh | SettleRefresh(result: Outcome) | FinishRefresh | BeginNotice | SettleNotice(ok: bool)

  /** The finally callback: only the state's own round is replaced. */
  function Finished(sh: Shared, rd: nat): Shared
    requires rd < |sh.rounds| && sh.rounds[rd].owner < |sh.states| && sh.rounds[rd].refresh.Closing?
  {
    var round := sh.rounds[rd];
    var settled := SetRound(sh, rd, round.(refresh := Settled(round.refresh.outcome)));
    if sh.states[round.owner].round == rd then
      Shared(sh.current, sh.states[round.owner := sh.states[round.owner].(round := |sh.rounds|)],
             settled.rounds + [NewRound(round.owner)])
    else settled
  }

  /** The steps of the shared promises; live says whether the round's epoch is still the session's. */
  function Turned(sh: Shared, rd: nat, live: bool, event: RoundEvent): Shared
    requires rd < |sh.rounds| && sh.rounds[rd].owner < |sh.states|
  {
    var round := sh.rounds[rd];
    match event
    case BeginRefresh =>
      if round.refresh != Queued then sh
      else if live then SetRound(sh, rd, round.(refresh := Calling, refreshCalls := round.refreshCalls + 1))
      else SetRound(sh, rd, round.(refresh := Closing(Failed)))
    case SettleRefresh(result) =>
      if round.refresh != Calling then sh
      else SetRound(sh, rd, round.(refresh := Closing(if live then result else Failed)))
    case FinishRefresh =>
      if round.refresh.Closing? then Finished(sh, rd) else sh
    case BeginNotice =>
      if round.notice != NoticeQueued then sh
      else if live then SetRound(sh, rd, round.(notice := NoticeCalling, noticeCalls := round.noticeCalls + 1))
      else SetRound(sh, rd, round.(notice := NoticeSettled(false)))
    case SettleNotice(ok) =>
      if round.notice != NoticeCalling then sh else SetRound(sh, rd, round.(notice := NoticeSettled(ok)))
  }

  /** createAuthCoordinator: the closure's variables and what each synchronous stretch does to them. */
  class Coordinator {
    const canNotify: bool
    var current: Option<nat>
    var states: seq<EpochState>
    var rounds: seq<Round>

    ghost function Contents(): Shared
      reads this
    {
      Shared(current, states, rounds)
    }

    constructor (canNotify: bool)
      ensures this.canNotify == canNotify && Contents() == Shared(None, [], [])
    {
      this.canNotify := canNotify;
      current, states, rounds := None, [], [];
    }

    /** capture() */
    method Capture(now: Epoch) returns (snapshot: Snapshot)
      requires Linked(Contents())
      modifies this
      ensures Linked(Contents()) && Contents() == Captured(old(Contents()), now)
      ensures current.Some? && snapshot == SnapshotOf(Contents(), now)
    {
      if current.None? || states[current.value].epoch != now {
        current := Some(|states|);
        states := states + [EpochState(now, |rounds|)];
        rounds := rounds + [NewRound(|states| - 1)];
      }
      snapshot := Snapshot(now, current.value, states[current.value].round);
    }

    /** refresh(snapshot), up to the promise it returns. */
    method Refresh(snapshot: Snapshot, now: Option<Epoch>) returns (ok: bool)
      requires snapshot.round < |rounds|
      modifies this
      ensures ok <==> now == Some(snapshot.epoch)
      ensures Contents() == if ok then RefreshAsked(old(Contents()), snapshot.round) else old(Contents())
    {
      if now != Some(snapshot.epoch) { return false; }
      if rounds[snapshot.round].refresh == Absent {
        rounds := rounds[snapshot.round := rounds[snapshot.round].(refresh := Queued)];
      }
      return true;
    }

    /** notify(snapshot, error), up to the promise it returns. */
    method Notify(snapshot: Snapshot, now: Option<Epoch>) returns (ok: bool)
      requires snapshot.round < |rounds|
      modifies this
      ensures ok <==> now == Some(snapshot.epoch)
      ensures Contents() == if ok then NoticeAsked(old(Contents()), snapshot.round, canNotify) else old(Contents())
    {
      if now != Some(snapshot.epoch) { return false; }
      if !canNotify { return true; }
      if rounds[snapshot.round].notice == Silent {
        rounds := rounds[snapshot.round := rounds[snapshot.round].(notice := NoticeQueued)];
      }
      return true;
    }

    /** The microtask that calls refreshSession. */
    method CallRefresh(snapshot: Snapshot, now: Option<Epoch>) returns (called: bool)
      requires Linked(Contents()) && snapshot.round < |rounds| && rounds[snapshot.round].refresh == Queued
      modifies this
      ensures called <==> now == Some(snapshot.epoch)
      ensures Contents() == Turned(old(Contents()), snapshot.round, called, BeginRefresh)
    {
      var round := rounds[snapshot.round];
      if now != Some(snapshot.epoch) {
        rounds := rounds[snapshot.round := round.(refresh := Closing(Failed))];
        return false;
      }
      rounds := rounds[snapshot.round := round.(refresh := Calling, refreshCalls := round.refreshCalls + 1)];
      return true;
    }

    /** What follows refreshSession's answer. */
    method TakeAnswer(snapshot: Snapshot, now: Option<Epoch>, result: Outcome)
      requires Linked(Contents()) && snapshot.round < |rounds| && rounds[snapshot.round].refresh == Calling
      modifies this
      ensures Contents() == Turned(old(Contents()), snapshot.round, now == Some(snapshot.epoch), SettleRefresh(result))
    {
      var outcome := if now == Some(snapshot.epoch) then result else Failed;
      rounds := rounds[snapshot.round := rounds[snapshot.round].(refresh := Closing(outcome))];
    }

    /** The finally callback: the promise settles, and a round that is still its state's gives way to a new one. */
    method Finally(rd: nat)
      requires Linked(Contents()) && rd < |rounds| && rounds[rd].refresh.Closing?
      modifies this
      ensures Linked(Contents()) && Contents() == Finished(old(Contents()), rd)
    {
      var owner := rounds[rd].owner;
      rounds := rounds[rd := rounds[rd].(refresh := Settled(rounds[rd].refresh.outcome))];
      if states[owner].round == rd {
        states := states[owner := states[owner].(round := |rounds|)];
        rounds := rounds + [NewRound(owner)];
      }
    }

    /** The microtask that calls onUnauthorized. */
    method CallUnauthorized(snapshot: Snapshot, now: Option<Epoch>) returns (called: bool)
      requires Linked(Contents()) && snapshot.round < |rounds| && rounds[snapshot.round].notice == NoticeQueued
      modifies this
      ensures called <==> now == Some(snapshot.epoch)
      ensures Contents() == Turned(old(Contents()), snapshot.round, called, BeginNotice)
    {
      var round := rounds[snapshot.round];
      if now != Some(snapshot.epoch) {
        rounds := rounds[snapshot.round := round.(notice := NoticeSettled(false))];
        return false;
      }
      rounds := rounds[snapshot.round := round.(notice := NoticeCalling, noticeCalls := round.noticeCalls + 1)];
      return true;
    }
  }

  // ----- requests: auth/request.ts and the two loops -----

  datatype Kind = Http | Sse

  datatype Call = Call(kind: Kind, authenticated: bool, authRecovery: bool, maxRetries: nat)

  datatype Phase =
    | AwaitHeaders(calledAt: nat)
    | Ready
    | Sending
    | Converting
    | Judging(transport: bool)
    | AwaitRefresh
    | Recovered
    | AwaitNotice
    | Unrecovered(transport: bool)
    | Backoff
    | Reading
    | Done(returned: bool)

  datatype Request = Request(
    call: Call, auth: Option<Snapshot>, phase: Phase, canceled: bool, recovered: bool,
    headers: Option<Epoch>, sends: nat, retries: nat)

  /** What an authenticated request did to the outside: the session's epoch then, the epoch its headers come
      from, and the epoch it captured. */
  datatype Entry = Sent(now: Epoch, headers: Option<Epoch>, captured: Epoch) | Delivered(now: Epoch, captured: Epoch)

  datatype Config = Config(canRefresh: bool, canNotify: bool)

  /** history: every epoch the session has had, the last being the present one. */
  datatype System = System(history: seq<Epoch>, readable: bool, shared: Shared, requests: seq<Request>, log: seq<Entry>)

  datatype Chunk = Message | End | Cut

  datatype Answer = Good | Bad | Broken
  datatype Verdict = Recover | Keep | Throw

  /** What can happen to a request; parameters are what the environment answers. */
  datatype RequestEvent =
    | HeadersArrive(readAt: nat, valid: bool)
    | Send
    | Respond(answer: Answer)
    | Convert(ok: bool)
    | Judge(verdict: Verdict)
    | ResumeRefresh
    | Reread
    | ResumeNotice
    | Decide(grant: bool)
    | Read(chunk: Chunk)
    | Abandon

  datatype Action =
    | ChangeEpoch(epoch: Epoch)
    | SetReadable(readable: bool)
    | Cancel(request: nat)
    | Start(call: Call)
    | OfRequest(request: nat, event: RequestEvent)
    | OfRound(round: nat, turn: RoundEvent)

  function Now(s: System): Epoch
    requires s.history != []
  {
    s.history[|s.history| - 1]
  }

  /** assertCurrent: getSessionEpoch answers, and with the captured epoch. */
  predicate Current(s: System, e: Epoch) {
    s.readable && s.history != [] && Now(s) == e
  }

  /** checkActive. */
  predicate Active(s: System, q: Request) {
    !q.canceled && (q.auth.Some? ==> Current(s, q.auth.value.epoch))
  }

  function Stop(q: Request): Request { q.(phase := Done(false)) }

  predicate MayRecover(k: Config, q: Request) {
    q.auth.Some? && k.canRefresh && q.call.authRecovery
  }

  /** createRequestAuth and the synchronous start of headers(). */
  function Opened(s: System, call: Call): System
    requires s.history != []
  {
    if !call.authenticated then
      s.(requests := s.requests + [Request(call, None, Ready, false, false, None, 0, 0)])
    else if !s.readable then
      s.(requests := s.requests + [Request(call, None, Done(false), false, false, None, 0, 0)])
    else
      var sh := Captured(s.shared, Now(s));
      var q := Request(call, Some(SnapshotOf(sh, Now(s))), AwaitHeaders(|s.history| - 1), false, false, None, 0, 0);
      s.(shared := sh, requests := s.requests + [q])
  }

  /** The request's new state, the coordinator's, and what becomes visible outside. */
  datatype Effect = Effect(request: Request, shared: Shared, entries: seq<Entry>)

  function NotifyStep(k: Config, s: System, q: Request): Effect
    requires q.auth.Some? && q.auth.value.round < |s.shared.rounds|
  {
    Effect(q.(phase := AwaitNotice), NoticeAsked(s.shared, q.auth.value.round, k.canNotify), [])
  }

  /** recover(), up to its first await. */
  function Judged(k: Config, s: System, q: Request, verdict: Verdict): Effect
    requires q.phase.Judging? && (q.auth.Some? ==> q.auth.value.round < |s.shared.rounds|)
  {
    if !Active(s, q) then Effect(Stop(q), s.shared, [])
    else if !MayRecover(k, q) || verdict == Keep then Effect(q.(phase := Unrecovered(q.phase.transport)), s.shared, [])
    else if verdict == Throw then Effect(Stop(q), s.shared, [])
    else if !q.recovered then
      Effect(q.(phase := AwaitRefresh, recovered := true), RefreshAsked(s.shared, q.auth.value.round), [])
    else NotifyStep(k, s, q)
  }

  /** recover(), after the shared refresh. */
  function Refreshed(k: Config, s: System, q: Request): Effect
    requires q.auth.Some? && q.auth.value.round < |s.shared.rounds| && s.shared.rounds[q.auth.value.round].refresh.Settled?
  {
    var outcome := s.shared.rounds[q.auth.value.round].refresh.outcome;
    if outcome == Failed || !Active(s, q) then Effect(Stop(q), s.shared, [])
    else if outcome == Renewed then Effect(q.(phase := Recovered), s.shared, [])
    else NotifyStep(k, s, q)
  }

  function Delivery(s: System, q: Request): seq<Entry>
    requires s.history != []
  {
    if q.auth.Some? then [Delivered(Now(s), q.auth.value.epoch)] else []
  }

  function Dispatched(s: System, q: Request): Effect
    requires s.history != []
  {
    if !Active(s, q) then Effect(Stop(q), s.shared, [])
    else Effect(q.(phase := Sending, sends := q.sends + 1), s.shared,
                if q.auth.Some? then [Sent(Now(s), q.headers, q.auth.value.epoch)] else [])
  }

  function Answered(s: System, q: Request, answer: Answer): Effect {
    if !Active(s, q) || (q.call.kind.Sse? && answer == Broken) then Effect(Stop(q), s.shared, [])
    else if answer == Good then Effect(q.(phase := if q.call.kind.Sse? then Reading else Converting), s.shared, [])
    else Effect(q.(phase := Judging(q.call.kind.Http?)), s.shared, [])
  }

  function Decided(s: System, q: Request, grant: bool): Effect
    requires q.phase.Unrecovered?
  {
    if Active(s, q) && q.call.kind.Http? && q.phase.transport && grant && q.retries < q.call.maxRetries then
      Effect(q.(phase := Backoff, retries := q.retries + 1), s.shared, [])
    else Effect(Stop(q), s.shared, [])
  }

  function ReadOn(s: System, q: Request, chunk: Chunk): Effect
    requires s.history != []
  {
    if !Active(s, q) || chunk == Cut then Effect(Stop(q), s.shared, [])
    else if chunk == End then Effect(q.(phase := Done(true)), s.shared, [])
    else Effect(q, s.shared, Delivery(s, q))
  }

  predicate Waiting(p: Phase) {
    p.AwaitHeaders? || p.Sending? || p.Converting? || p.Judging? || p.AwaitRefresh? || p.AwaitNotice? || p.Backoff? || p.Reading?
  }

  function React(k: Config, s: System, q: Request, event: RequestEvent): Effect
    requires s.history != [] && (q.auth.Some? ==> q.auth.value.round < |s.shared.rounds|)
  {
    var same := Effect(q, s.shared, []);
    match event
    case HeadersArrive(readAt, valid) =>
      if !q.phase.AwaitHeaders? || q.auth.None? || !(q.phase.calledAt <= readAt < |s.history|) then same
      else if valid && Current(s, q.auth.value.epoch) then
        Effect(q.(phase := Ready, headers := Some(s.history[readAt])), s.shared, [])
      else Effect(Stop(q), s.shared, [])
    case Send => if q.phase.Ready? || q.phase.Backoff? then Dispatched(s, q) else same
    case Respond(answer) => if q.phase.Sending? then Answered(s, q, answer) else same
    case Convert(ok) =>
      if !q.phase.Converting? then same
      else if !Active(s, q) then Effect(Stop(q), s.shared, [])
      else if ok then Effect(q.(phase := Done(true)), s.shared, Delivery(s, q))
      else Effect(q.(phase := Judging(false)), s.shared, [])
    case Judge(verdict) => if q.phase.Judging? then Judged(k, s, q, verdict) else same
    case ResumeRefresh =>
      if q.phase.AwaitRefresh? && q.auth.Some? && s.shared.rounds[q.auth.value.round].refresh.Settled? then Refreshed(k, s, q)
      else same
    case Reread =>
      if !q.phase.Recovered? then same
      else if Active(s, q) then Effect(q.(phase := AwaitHeaders(|s.history| - 1)), s.shared, [])
      else Effect(Stop(q), s.shared, [])
    case ResumeNotice =>
      if q.phase.AwaitNotice? && q.auth.Some? && (!k.canNotify || s.shared.rounds[q.auth.value.round].notice.NoticeSettled?)
      then Effect(Stop(q), s.shared, []) else same
    case Decide(grant) => if q.phase.Unrecovered? then Decided(s, q, grant) else same
    case Read(chunk) => if q.phase.Reading? then ReadOn(s, q, chunk) else same
    case Abandon => if q.canceled && Waiting(q.phase) then Effect(Stop(q), s.shared, []) else same
  }

  predicate Applies(s: System, q: Request) {
    q.auth.Some? ==> q.auth.value.round < |s.shared.rounds|
  }

  function Step(k: Config, s: System, a: Action): System {
    if s.history == [] then s
    else match a
      case ChangeEpoch(e) => if e in s.history then s else s.(history := s.history + [e])
      case SetReadable(b) => s.(readable := b)
      case Cancel(r) =>
        if r < |s.requests| then s.(requests := s.requests[r := s.requests[r].(canceled := true)]) else s
      case Start(call) => Opened(s, call)
      case OfRequest(r, event) =>
        if r < |s.requests| && Applies(s, s.requests[r]) then
          var e := React(k, s, s.requests[r], event);
          s.(requests := s.requests[r := e.request], shared := e.shared, log := s.log + e.entries)
        else s
      case OfRound(rd, turn) =>
        if rd < |s.shared.rounds| && s.shared.rounds[rd].owner < |s.shared.states| then
          s.(shared := Turned(s.shared, rd, Current(s, s.shared.states[s.shared.rounds[rd].owner].epoch), turn))
        else s
  }

  function Run(k: Config, s: System, actions: seq<Action>): System
    decreases |actions|
  {
    if actions == [] then s else Run(k, Step(k, s, actions[0]), actions[1..])
  }

  function Initial(e: Epoch): System { System([e], true, Shared(None, [], []), [], []) }
}
