/** The request loops of HttpCalls as behaviours of the recovery protocol: driving one request through the
    protocol's own steps, whatever the other parties do in between, sends as often and ends as the loop says. */
module HttpRefinement {
  import opened Optional
  import opened AuthProtocol
  import opened HttpCalls

  /** The stages of one attempt at which the request looks at the session. */
  datatype Stage = AtSend | AtAnswer | AtConvert | AtJudge | AtResume | AtReread | AtHeaders | AtNotice | AtDecide

  /** What it finds there: the system as everybody has left it, and whether it was canceled by then. */
  datatype View = View(system: System, canceled: bool, readAt: nat)

  type Views = Stage -> View

  function Take(k: Config, q: Request, v: View, event: RequestEvent): Request
    requires v.system.history != [] && Applies(v.system, q)
  {
    React(k, v.system, q.(canceled := v.canceled), event).request
  }

  predicate FitsAuth(views: Views, auth: Option<Snapshot>) {
    forall stage ::
      && views(stage).system.history != []
      && (auth.Some? ==> auth.value.round < |views(stage).system.shared.rounds|)
  }

  predicate Fits(views: Views, q: Request) { FitsAuth(views, q.auth) }

  lemma TakeKeeps(k: Config, q: Request, v: View, event: RequestEvent)
    requires v.system.history != [] && Applies(v.system, q)
    ensures Take(k, q, v, event).auth == q.auth && Take(k, q, v, event).call == q.call
  {
    hide RefreshAsked, NoticeAsked;
  }

  predicate Lively(views: Views, stage: Stage, q: Request) {
    Active(views(stage).system, q.(canceled := views(stage).canceled))
  }

  function AfterResume(k: Config, q: Request, views: Views, grant: bool): (n: Request)
    requires Fits(views, q)
    ensures n.auth == q.auth && n.call == q.call
  {
    var q1 := Take(k, q, views(AtReread), Reread);
    TakeKeeps(k, q, views(AtReread), Reread);
    var q2 := Take(k, q1, views(AtHeaders), HeadersArrive(views(AtHeaders).readAt, true));
    TakeKeeps(k, q1, views(AtHeaders), HeadersArrive(views(AtHeaders).readAt, true));
    var q3 := Take(k, q2, views(AtNotice), ResumeNotice);
    TakeKeeps(k, q2, views(AtNotice), ResumeNotice);
    TakeKeeps(k, q3, views(AtDecide), Decide(grant));
    Take(k, q3, views(AtDecide), Decide(grant))
  }

  function Settling(k: Config, q: Request, views: Views, grant: bool): (n: Request)
    requires Fits(views, q)
    ensures n.auth == q.auth && n.call == q.call
  {
    var q1 := Take(k, q, views(AtResume), ResumeRefresh);
    TakeKeeps(k, q, views(AtResume), ResumeRefresh);
    AfterResume(k, q1, views, grant)
  }

  /** The stages of an attempt one after the other; those that do not apply change nothing. */
  function Driven(k: Config, q: Request, views: Views, answer: Answer, converts: bool, verdict: Verdict, grant: bool): (n: Request)
    requires Fits(views, q)
    ensures n.auth == q.auth && n.call == q.call
  {
    var q1 := Take(k, q, views(AtSend), Send);
    TakeKeeps(k, q, views(AtSend), Send);
    var q2 := Take(k, q1, views(AtAnswer), Respond(answer));
    TakeKeeps(k, q1, views(AtAnswer), Respond(answer));
    var q3 := Take(k, q2, views(AtConvert), Convert(converts));
    TakeKeeps(k, q2, views(AtConvert), Convert(converts));
    var q4 := Take(k, q3, views(AtJudge), Judge(verdict));
    TakeKeeps(k, q3, views(AtJudge), Judge(verdict));
    Settling(k, q4, views, grant)
  }

  // ----- one attempt of client.ts -----

  /** A recovery this attempt asks for and may have. */
  predicate Recovers(k: Config, q: Request, w: Session) {
    MayRecover(k, q) && w.verdict == AuthProtocol.Recover && !q.recovered
  }

  /** Somewhere on its way through recovery or back-off the request finds itself canceled or its session changed. */
  predicate Halted(k: Config, q: Request, views: Views, w: Session) {
    || !Lively(views, AtJudge, q)
    || (Recovers(k, q, w) && w.refreshed == Renewed
        && !(Lively(views, AtResume, q) && Lively(views, AtReread, q) && Current(views(AtHeaders).system, q.auth.value.epoch)))
    || ((!MayRecover(k, q) || w.verdict == Keep) && !Lively(views, AtDecide, q))
  }

  /** The shared promises the request waits for have settled as the attempt says, and headers were read since they
      were asked for. */
  predicate Settles(k: Config, q: Request, views: Views, w: Session)
    requires Fits(views, q)
  {
    q.auth.Some? ==>
      var rd := q.auth.value.round;
      && (Recovers(k, q, w) ==> views(AtResume).system.shared.rounds[rd].refresh == Settled(w.refreshed))
      && (!k.canNotify || views(AtNotice).system.shared.rounds[rd].notice.NoticeSettled?)
      && |views(AtReread).system.history| - 1 <= views(AtHeaders).readAt < |views(AtHeaders).system.history|
  }

  /** The attempt describes what the request finds. */
  predicate Describes(k: Config, q: Request, views: Views, a: Attempt)
    requires Fits(views, q)
  {
    match a
    case NotSent => !Lively(views, AtSend, q)
    case Interrupted => Lively(views, AtSend, q) && !(Lively(views, AtAnswer, q) && Lively(views, AtConvert, q))
    case Success => Lively(views, AtSend, q) && Lively(views, AtAnswer, q) && Lively(views, AtConvert, q)
    case Failure(transport, _, w, _) =>
      && Lively(views, AtSend, q) && Lively(views, AtAnswer, q) && (!transport ==> Lively(views, AtConvert, q))
      && w.stopped == Halted(k, q, views, w) && Settles(k, q, views, w)
  }

  function Through(k: Config, q: Request, views: Views, a: Attempt, grant: bool): (n: Request)
    requires Fits(views, q)
    ensures n.auth == q.auth && n.call == q.call
  {
    Driven(k, q, views, if a.Failure? && a.transport then Bad else Good, !a.Failure?,
           if a.Failure? then a.session.verdict else Keep, grant)
  }

  /** The request goes on as the loop does. */
  predicate GoesOn(q: Request, n: Request, move: Move) {
    && n.auth == q.auth && n.call == q.call
    && match move
       case Finish(ok) => n.phase == Done(ok)
       case Resend => n.phase == Ready && n.recovered && n.retries == q.retries
       case RetryAfter(_) => n.phase == Backoff && n.recovered == q.recovered && n.retries == q.retries + 1
  }

  /** Only the captured epoch and the cancellation decide whether a request is still active. */
  lemma ActiveSame(q: Request, views: Views)
    ensures forall stage, n: Request :: n.auth == q.auth ==>
              Active(views(stage).system, n.(canceled := views(stage).canceled)) == Lively(views, stage, q)
  {
  }

  lemma LivelyIs(views: Views, stage: Stage, q: Request)
    ensures Lively(views, stage, q) == Active(views(stage).system, q.(canceled := views(stage).canceled))
  {
  }

  lemma SameLively(views: Views, stage: Stage, q: Request, n: Request)
    requires n.auth == q.auth
    ensures Lively(views, stage, n) == Lively(views, stage, q)
  {
  }

  predicate Kept(q: Request, n: Request) {
    n.auth == q.auth && n.call == q.call && n.recovered == q.recovered && n.retries == q.retries
  }

  lemma SendStage(k: Config, q: Request, views: Views)
    requires Fits(views, q) && (q.phase.Ready? || q.phase.Backoff?)
    ensures var n := Take(k, q, views(AtSend), Send);
            && Kept(q, n) && n.phase == (if Lively(views, AtSend, q) then Sending else Done(false))
            && n.sends == q.sends + if Lively(views, AtSend, q) then 1 else 0
  {
    hide Judged, Refreshed, Active;
    LivelyIs(views, AtSend, q);
  }

  lemma AnswerStage(k: Config, q: Request, views: Views, answer: Answer)
    requires Fits(views, q) && (q.phase.Sending? || q.phase.Done?)
    ensures var n := Take(k, q, views(AtAnswer), Respond(answer));
            && Kept(q, n) && n.sends == q.sends
            && n.phase == (if q.phase.Done? then q.phase
                           else if !Lively(views, AtAnswer, q) || (q.call.kind.Sse? && answer == Broken) then Done(false)
                           else if answer == Good then (if q.call.kind.Sse? then Reading else Converting)
                           else Judging(q.call.kind.Http?))
  {
    hide Judged, Refreshed, Active;
    LivelyIs(views, AtAnswer, q);
  }

  lemma ConvertStage(k: Config, q: Request, views: Views, ok: bool)
    requires Fits(views, q)
    ensures var n := Take(k, q, views(AtConvert), Convert(ok));
            && Kept(q, n) && n.sends == q.sends
            && n.phase == (if !q.phase.Converting? then q.phase
                           else if !Lively(views, AtConvert, q) then Done(false)
                           else if ok then Done(true) else Judging(false))
  {
    hide Judged, Refreshed, Active;
    LivelyIs(views, AtConvert, q);
  }

  lemma RereadStage(k: Config, q: Request, views: Views)
    requires Fits(views, q) && q.phase.Recovered? && q.auth.Some?
    ensures var n := Take(k, q, views(AtReread), Reread);
            && Kept(q, n) && n.sends == q.sends
            && n.phase == if Lively(views, AtReread, q) then AwaitHeaders(|views(AtReread).system.history| - 1) else Done(false)
  {
    hide Judged, Refreshed, Active;
    LivelyIs(views, AtReread, q);
  }

  lemma HeadersStage(k: Config, q: Request, views: Views)
    requires Fits(views, q) && q.auth.Some? && (q.phase.AwaitHeaders? || q.phase.Done?)
    requires q.phase.AwaitHeaders? ==> q.phase.calledAt <= views(AtHeaders).readAt < |views(AtHeaders).system.history|
    ensures var n := Take(k, q, views(AtHeaders), HeadersArrive(views(AtHeaders).readAt, true));
            && Kept(q, n) && n.sends == q.sends
            && n.phase == (if q.phase.Done? then q.phase
                           else if Current(views(AtHeaders).system, q.auth.value.epoch) then Ready else Done(false))
  {
    hide Judged, Refreshed, Current;
  }

  /** A request that is ready or done waits for nothing more in this attempt. */
  lemma RestStages(k: Config, q: Request, views: Views, grant: bool)
    requires Fits(views, q) && (q.phase.Ready? || q.phase.Done?)
    ensures var q1 := Take(k, q, views(AtNotice), ResumeNotice);
            && Fits(views, q1)
            && var n := Take(k, q1, views(AtDecide), Decide(grant));
            Kept(q, n) && n.sends == q.sends && n.phase == q.phase
  {
    hide Judged, Refreshed, Active;
  }

  /** Sending and answering: what is left is a verdict to be asked for, or nothing. */
  lemma FirstStages(k: Config, q: Request, views: Views, a: Attempt)
    requires Fits(views, q) && q.call.kind.Http? && (q.phase.Ready? || q.phase.Backoff?) && Describes(k, q, views, a)
    ensures var q1 := Take(k, q, views(AtSend), Send);
            && Applies(views(AtAnswer).system, q1)
            && var q2 := Take(k, q1, views(AtAnswer), Respond(if a.Failure? && a.transport then Bad else Good));
            && Applies(views(AtConvert).system, q2)
            && var q3 := Take(k, q2, views(AtConvert), Convert(!a.Failure?));
            && q3.auth == q.auth && q3.call == q.call && q3.recovered == q.recovered && q3.retries == q.retries
            && q3.sends == q.sends + (if a.NotSent? then 0 else 1)
            && q3.phase == (if a.Failure? then Judging(a.transport) else Done(a.Success?))
  {
    hide Halted, Settles, Take, Lively;
    SendStage(k, q, views);
    var q1 := Take(k, q, views(AtSend), Send);
    SameLively(views, AtAnswer, q, q1);
    var answer := if a.Failure? && a.transport then Bad else Good;
    AnswerStage(k, q1, views, answer);
    var q2 := Take(k, q1, views(AtAnswer), Respond(answer));
    SameLively(views, AtConvert, q, q2);
    ConvertStage(k, q2, views, !a.Failure?);
  }

  /** recover(), up to its first await. */
  lemma JudgeStage(k: Config, q: Request, views: Views, w: Session)
    requires Fits(views, q) && q.phase.Judging?
    ensures var n := Take(k, q, views(AtJudge), Judge(w.verdict));
            && n.auth == q.auth && n.call == q.call && n.sends == q.sends && n.retries == q.retries
            && n.recovered == (q.recovered || (Lively(views, AtJudge, q) && Recovers(k, q, w)))
            && n.phase == (if !Lively(views, AtJudge, q) then Done(false)
                           else if !MayRecover(k, q) || w.verdict == Keep then Unrecovered(q.phase.transport)
                           else if w.verdict == Throw then Done(false)
                           else if !q.recovered then AwaitRefresh else AwaitNotice)
  {
    hide RefreshAsked, NoticeAsked;
  }

  lemma DoneAfterResume(k: Config, q: Request, views: Views, grant: bool)
    requires Fits(views, q) && q.phase.Done?
    ensures var n := AfterResume(k, q, views, grant);
            n.phase == q.phase && n.sends == q.sends && n.auth == q.auth && n.call == q.call
  {
    hide Refreshed, Active;
  }

  lemma SettleDone(k: Config, q: Request, views: Views, grant: bool)
    requires Fits(views, q) && q.phase.Done?
    ensures var n := Settling(k, q, views, grant);
            n.phase == q.phase && n.sends == q.sends && n.auth == q.auth && n.call == q.call
  {
    hide Refreshed, Active, AfterResume;
    DoneAfterResume(k, q.(canceled := views(AtResume).canceled), views, grant);
  }

  lemma NoticeAfterResume(k: Config, q: Request, views: Views, grant: bool)
    requires Fits(views, q) && q.phase.AwaitNotice? && q.auth.Some?
    requires !k.canNotify || views(AtNotice).system.shared.rounds[q.auth.value.round].notice.NoticeSettled?
    ensures var n := AfterResume(k, q, views, grant);
            n.phase == Done(false) && n.sends == q.sends && n.auth == q.auth && n.call == q.call
  {
    hide Refreshed, Active;
  }

  lemma SettleNotice(k: Config, q: Request, views: Views, grant: bool)
    requires Fits(views, q) && q.phase.AwaitNotice? && q.auth.Some?
    requires !k.canNotify || views(AtNotice).system.shared.rounds[q.auth.value.round].notice.NoticeSettled?
    ensures var n := Settling(k, q, views, grant);
            n.phase == Done(false) && n.sends == q.sends && n.auth == q.auth && n.call == q.call
  {
    hide Refreshed, Active, AfterResume;
    NoticeAfterResume(k, q.(canceled := views(AtResume).canceled), views, grant);
  }

  lemma SettleUnrecovered(k: Config, q: Request, views: Views, grant: bool)
    requires Fits(views, q) && q.phase.Unrecovered? && q.call.kind.Http? && (grant ==> q.retries < q.call.maxRetries)
    ensures var n := Settling(k, q, views, grant);
            && n.sends == q.sends && n.auth == q.auth && n.call == q.call && n.recovered == q.recovered
            && if Lively(views, AtDecide, q) && q.phase.transport && grant then n.phase == Backoff && n.retries == q.retries + 1
               else n.phase == Done(false)
  {
    hide Refreshed, Active;
    ActiveSame(q, views);
  }

  lemma ResumeStage(k: Config, q: Request, views: Views, w: Session)
    requires Fits(views, q) && q.phase.AwaitRefresh? && q.auth.Some?
    requires views(AtResume).system.shared.rounds[q.auth.value.round].refresh == Settled(w.refreshed)
    ensures var n := Take(k, q, views(AtResume), ResumeRefresh);
            && n.sends == q.sends && n.auth == q.auth && n.call == q.call && n.recovered == q.recovered && n.retries == q.retries
            && n.phase == (if w.refreshed == Failed || !Lively(views, AtResume, q) then Done(false)
                           else if w.refreshed == Renewed then Recovered else AwaitNotice)
  {
    hide NoticeAsked;
  }

  /** The headers read again after a recovery. */
  lemma SettleRecovered(k: Config, q: Request, views: Views, grant: bool)
    requires Fits(views, q) && q.phase.Recovered? && q.auth.Some?
    requires |views(AtReread).system.history| - 1 <= views(AtHeaders).readAt < |views(AtHeaders).system.history|
    ensures var n := AfterResume(k, q, views, grant);
            && n.sends == q.sends && n.auth == q.auth && n.call == q.call && n.recovered == q.recovered && n.retries == q.retries
            && n.phase == (if Lively(views, AtReread, q) && Current(views(AtHeaders).system, q.auth.value.epoch)
                           then Ready else Done(false))
  {
    hide Take, Lively, Current;
    RereadStage(k, q, views);
    var q1 := Take(k, q, views(AtReread), Reread);
    HeadersStage(k, q1, views);
    var q2 := Take(k, q1, views(AtHeaders), HeadersArrive(views(AtHeaders).readAt, true));
    RestStages(k, q2, views, grant);
  }

  /** recover(), after the shared refresh, and what follows. */
  lemma SettleRefresh(k: Config, q: Request, views: Views, grant: bool, w: Session)
    requires Fits(views, q) && q.phase.AwaitRefresh? && q.auth.Some? && q.recovered && Recovers(k, q.(recovered := false), w)
    requires Settles(k, q.(recovered := false), views, w)
    ensures var n := Settling(k, q, views, grant);
            && n.sends == q.sends && n.auth == q.auth && n.call == q.call
            && (n.phase.Ready? ==> n.recovered && n.retries == q.retries)
            && n.phase == (if w.refreshed == Renewed && Lively(views, AtResume, q) && Lively(views, AtReread, q)
                              && Current(views(AtHeaders).system, q.auth.value.epoch)
                           then Ready else Done(false))
  {
    hide Take, AfterResume, Lively, Current;
    ResumeStage(k, q, views, w);
    var q1 := Take(k, q, views(AtResume), ResumeRefresh);
    SameLively(views, AtReread, q, q1);
    if q1.phase.Recovered? {
      SettleRecovered(k, q1, views, grant);
    } else if q1.phase.AwaitNotice? {
      NoticeAfterResume(k, q1, views, grant);
    } else {
      DoneAfterResume(k, q1, views, grant);
    }
  }

  /** Recovery and back-off: the protocol's steps and the loop's decision agree. */
  lemma LastStages(k: Config, q: Request, views: Views, a: Attempt, d: Demand, p: Policy, grant: bool)
    requires Fits(views, q) && q.call.kind.Http? && a.Failure? && q.phase == Judging(a.transport)
    requires a.session.stopped == Halted(k, q, views, a.session) && Settles(k, q, views, a.session)
    requires grant == RetryDelay(a.error, d, q.retries, p, a.random).Some? && (grant ==> q.retries < q.call.maxRetries)
    ensures var q1 := Take(k, q, views(AtJudge), Judge(a.session.verdict));
            && Fits(views, q1)
            && var n := Settling(k, q1, views, grant);
            && GoesOn(q, n, MoveOn(d, p, MayRecover(k, q), a, q.retries, q.recovered)) && n.sends == q.sends
  {
    hide RetryDelay, Take, Settling, Active, Current;
    var w := a.session;
    JudgeStage(k, q, views, w);
    var q1 := Take(k, q, views(AtJudge), Judge(w.verdict));
    SameLively(views, AtDecide, q, q1);
    SameLively(views, AtResume, q, q1);
    SameLively(views, AtReread, q, q1);
    if q1.phase.Done? {
      SettleDone(k, q1, views, grant);
    } else if q1.phase.Unrecovered? {
      SettleUnrecovered(k, q1, views, grant);
    } else if q1.phase.AwaitNotice? {
      SettleNotice(k, q1, views, grant);
    } else {
      SettleRefresh(k, q1, views, grant, w);
    }
  }

  lemma HaltedSame(k: Config, q: Request, n: Request, views: Views, w: Session)
    requires Fits(views, q) && n.auth == q.auth && n.call == q.call && n.recovered == q.recovered
    ensures Fits(views, n) && Halted(k, n, views, w) == Halted(k, q, views, w) && Settles(k, n, views, w) == Settles(k, q, views, w)
    ensures MayRecover(k, n) == MayRecover(k, q)
  {
  }

  lemma JudgeDone(k: Config, q: Request, views: Views)
    requires Fits(views, q) && q.phase.Done?
    ensures Take(k, q, views(AtJudge), Judge(Keep)) == q.(canceled := views(AtJudge).canceled)
  {
  }

  /** One attempt: the request, driven through the protocol, goes on exactly as the loop decides. */
  lemma AttemptIsProtocol(k: Config, q: Request, views: Views, a: Attempt, d: Demand, p: Policy, grant: bool)
    requires Fits(views, q) && q.call.kind.Http? && (q.phase.Ready? || q.phase.Backoff?) && Describes(k, q, views, a)
    requires a.Failure? ==>
               grant == RetryDelay(a.error, d, q.retries, p, a.random).Some? && (grant ==> q.retries < q.call.maxRetries)
    ensures var n := Through(k, q, views, a, grant);
            && GoesOn(q, n, MoveOn(d, p, MayRecover(k, q), a, q.retries, q.recovered))
            && n.sends == q.sends + (if a.NotSent? then 0 else 1)
  {
    hide RetryDelay, Take, Settling, Lively, Current;
    FirstStages(k, q, views, a);
    var q1 := Take(k, q, views(AtSend), Send);
    var q2 := Take(k, q1, views(AtAnswer), Respond(if a.Failure? && a.transport then Bad else Good));
    var q3 := Take(k, q2, views(AtConvert), Convert(!a.Failure?));
    if a.Failure? {
      HaltedSame(k, q, q3, views, a.session);
      LastStages(k, q3, views, a, d, p, grant);
    } else {
      JudgeDone(k, q3, views);
      SettleDone(k, Take(k, q3, views(AtJudge), Judge(Keep)), views, grant);
    }
  }

  // ----- the whole call -----

  function Grant(d: Demand, p: Policy, a: Attempt, retries: nat): bool {
    a.Failure? && RetryDelay(a.error, d, retries, p, a.random).Some?
  }

  ghost predicate AllFit(views: nat -> Views, auth: Option<Snapshot>) {
    forall i :: FitsAuth(views(i), auth)
  }

  /** Attempt after attempt, up to m of them; the next is the one its sends so far number. */
  function Called(k: Config, d: Demand, p: Policy, views: nat -> Views, world: nat -> Attempt, q: Request, m: nat): Request
    requires AllFit(views, q.auth)
    decreases m
  {
    if m == 0 || q.phase.Done? then q
    else Called(k, d, p, views, world, Through(k, q, views(q.sends), world(q.sends), Grant(d, p, world(q.sends), q.retries)), m - 1)
  }

  /** Each attempt describes what the request finds at its turn. */
  predicate Explained(k: Config, d: Demand, p: Policy, views: nat -> Views, world: nat -> Attempt, q: Request, m: nat)
    requires AllFit(views, q.auth)
    decreases m
  {
    m == 0 || q.phase.Done? ||
    (Describes(k, q, views(q.sends), world(q.sends))
     && Explained(k, d, p, views, world, Through(k, q, views(q.sends), world(q.sends), Grant(d, p, world(q.sends), q.retries)), m - 1))
  }

  lemma OnlySentGoesOn(d: Demand, p: Policy, mayRecover: bool, a: Attempt, retries: nat, recovered: bool)
    ensures var move := MoveOn(d, p, mayRecover, a, retries, recovered);
            && (!move.Finish? ==> a.Failure?)
            && (move.Resend? ==> !recovered)
            && (move.RetryAfter? ==> retries < Limit(d, p))
  {
  }

  /** The loop of client.ts is a behaviour of the protocol: whatever the other parties do between its stages, the
      request sends as often and ends as the loop does. */
  lemma {:induction false} LoopIsProtocol(k: Config, d: Demand, p: Policy, views: nat -> Views, world: nat -> Attempt, q: Request, m: nat)
    requires AllFit(views, q.auth)
    requires q.call.kind.Http? && q.call.maxRetries == Limit(d, p) && (q.phase.Ready? || q.phase.Backoff?)
    requires q.retries <= Limit(d, p) && m > (if q.recovered then 0 else 1) + Limit(d, p) - q.retries
    requires Explained(k, d, p, views, world, q, m)
    ensures var n, r := Called(k, d, p, views, world, q, m), HttpSpec(d, p, MayRecover(k, q), world, q.sends, q.retries, q.recovered);
            n.phase == Done(r.ok) && n.sends == r.sends
    decreases m
  {
    hide Through, Describes, RetryDelay, FitsAuth;
    var a := world(q.sends);
    var n := Through(k, q, views(q.sends), a, Grant(d, p, a, q.retries));
    if a.Failure? { CreditLeft(a.error, d, q.retries, p, a.random); }
    AttemptIsProtocol(k, q, views(q.sends), a, d, p, Grant(d, p, a, q.retries));
    OnlySentGoesOn(d, p, MayRecover(k, q), a, q.retries, q.recovered);
    if !n.phase.Done? { LoopIsProtocol(k, d, p, views, world, n, m - 1); }
  }

  // ----- the loop of sse/client.ts -----

  function AnswerOf(o: Opening): Answer {
    match o
    case Open => Good
    case NotAStream => Good
    case Refused(_) => Bad
    case _ => Broken
  }

  function Opened(k: Config, q: Request, views: Views, o: Opening): (n: Request)
    requires Fits(views, q)
    ensures n.auth == q.auth && n.call == q.call
  {
    Driven(k, q, views, AnswerOf(o), false, if o.Refused? then o.session.verdict else Keep, false)
  }

  predicate DescribesOpening(k: Config, q: Request, views: Views, o: Opening)
    requires Fits(views, q)
  {
    if o.NotSent? then !Lively(views, AtSend, q)
    else
      && Lively(views, AtSend, q) && (!o.NotConnected? ==> Lively(views, AtAnswer, q))
      && (o.Refused? ==> o.session.stopped == Halted(k, q, views, o.session) && Settles(k, q, views, o.session))
  }

  lemma OpeningStages(k: Config, q: Request, views: Views, o: Opening)
    requires Fits(views, q) && q.call.kind.Sse? && q.phase.Ready? && DescribesOpening(k, q, views, o)
    ensures var q1 := Take(k, q, views(AtSend), Send);
            && Applies(views(AtAnswer).system, q1)
            && var q2 := Take(k, q1, views(AtAnswer), Respond(AnswerOf(o)));
            && Applies(views(AtConvert).system, q2)
            && var q3 := Take(k, q2, views(AtConvert), Convert(false));
            && q3.auth == q.auth && q3.call == q.call && q3.recovered == q.recovered && q3.retries == q.retries
            && q3.sends == q.sends + (if o.NotSent? then 0 else 1)
            && q3.phase == (if o.Refused? then Judging(false) else if o.Open? || o.NotAStream? then Reading else Done(false))
  {
    hide Halted, Settles, Take, Lively;
    SendStage(k, q, views);
    var q1 := Take(k, q, views(AtSend), Send);
    SameLively(views, AtAnswer, q, q1);
    AnswerStage(k, q1, views, AnswerOf(o));
    ConvertStage(k, Take(k, q1, views(AtAnswer), Respond(AnswerOf(o))), views, false);
  }

  lemma SettleStream(k: Config, q: Request, views: Views)
    requires Fits(views, q) && q.call.kind.Sse? && q.phase.Unrecovered?
    ensures Settling(k, q, views, false).phase == Done(false) && Settling(k, q, views, false).sends == q.sends
  {
    hide Refreshed, Active;
  }

  lemma ReadingStays(k: Config, q: Request, views: Views)
    requires Fits(views, q) && q.phase.Reading?
    ensures var q1 := Take(k, q, views(AtJudge), Judge(Keep));
            && Fits(views, q1)
            && var n := Settling(k, q1, views, false);
            n.phase == Reading && n.sends == q.sends && n.recovered == q.recovered
  {
    hide Refreshed, Active, Judged;
  }

  /** One opening: read on, open once more, or end. */
  lemma OpeningIsProtocol(k: Config, q: Request, views: Views, o: Opening)
    requires Fits(views, q) && q.call.kind.Sse? && q.phase.Ready? && DescribesOpening(k, q, views, o)
    ensures var n := Opened(k, q, views, o);
            && n.sends == q.sends + (if o.NotSent? then 0 else 1)
            && (if OpensAgain(MayRecover(k, q), o, q.recovered) then n.phase == Ready && n.recovered
                else n.phase == if o.Open? || o.NotAStream? then Reading else Done(false))
  {
    hide Take, Settling, Lively, Current;
    OpeningStages(k, q, views, o);
    var q1 := Take(k, q, views(AtSend), Send);
    var q2 := Take(k, q1, views(AtAnswer), Respond(AnswerOf(o)));
    var q3 := Take(k, q2, views(AtConvert), Convert(false));
    if o.Refused? {
      var w := o.session;
      HaltedSame(k, q, q3, views, w);
      JudgeStage(k, q3, views, w);
      var q4 := Take(k, q3, views(AtJudge), Judge(w.verdict));
      SameLively(views, AtResume, q3, q4);
      SameLively(views, AtReread, q3, q4);
      if q4.phase.Done? {
        SettleDone(k, q4, views, false);
      } else if q4.phase.Unrecovered? {
        SettleStream(k, q4, views);
      } else if q4.phase.AwaitNotice? {
        SettleNotice(k, q4, views, false);
      } else {
        SettleRefresh(k, q4, views, false, w);
      }
    } else if o.Open? || o.NotAStream? {
      ReadingStays(k, q3, views);
    } else {
      JudgeDone(k, q3, views);
      SettleDone(k, Take(k, q3, views(AtJudge), Judge(Keep)), views, false);
    }
  }

  /** The stream's loop is a behaviour of the protocol: a fresh request fetches as often, and comes to read
      exactly when its last opening is answered with a response that is no refusal. */
  lemma StreamIsProtocol(k: Config, q: Request, views: nat -> Views, world: nat -> Opening, pieces: seq<Piece>)
    requires AllFit(views, q.auth)
    requires q.call.kind.Sse? && q.phase.Ready? && !q.recovered && q.sends == 0
    requires DescribesOpening(k, q, views(0), world(0))
    requires var first := Opened(k, q, views(0), world(0));
             first.phase.Ready? && Fits(views(1), first) ==> DescribesOpening(k, first, views(1), world(1))
    ensures var first := Opened(k, q, views(0), world(0));
            && Fits(views(1), first)
            && var last := if first.phase.Ready? then Opened(k, first, views(1), world(1)) else first;
               var o := if first.phase.Ready? then world(1) else world(0);
            && last.sends == StreamSpec(MayRecover(k, q), world, pieces).fetches
            && last.phase == if o.Open? || o.NotAStream? then Reading else Done(false)
  {
    hide Opened, DescribesOpening;
    OpeningIsProtocol(k, q, views(0), world(0));
    var first := Opened(k, q, views(0), world(0));
    if first.phase.Ready? { OpeningIsProtocol(k, first, views(1), world(1)); }
  }
}
