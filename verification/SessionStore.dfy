/** The Go store around the script (sdk/go/gateway/sessionauth/store.go): argument checks, the retry on
    identifier collisions, and the decoding of what the script returns. */
module SessionStore {
  import Base64Url
  import opened Octets
  import opened Optional
  import opened SessionIdentity
  import opened SessionScript
  import opened SessionRefinement
  import opened SessionRuns
  import opened SessionCorruption

  datatype GoSession = GoSession(id: Id, identity: Identity, createdAt: int, expiresAt: int)

  datatype Error = InvalidInput | NotEncodable | NoRandomness | CorruptSession | SessionCollision

  datatype Outcome<+T> = Done(value: T) | NotFound | Failed(error: Error)

  /** strings.TrimSpace(user) == "": nothing but Unicode white space. */
  predicate Blank(user: User) {
    forall c :: c in user ==>
      '\t' <= c <= '\r' || c == ' ' || c == '\U{0085}' || c == '\U{00A0}' || c == '\U{1680}' || '\U{2000}' <= c <= '\U{200A}'
      || c == '\U{2028}' || c == '\U{2029}' || c == '\U{202F}' || c == '\U{205F}' || c == '\U{3000}'
  }

  /** validSessionID: 43 characters that decode to 32 bytes and are exactly the encoding of those. */
  predicate ValidSessionId(id: Id) {
    |id| == 43 && Base64Url.Decodable(id) && |Base64Url.Decode(id)| == 32 && Base64Url.Encode(Base64Url.Decode(id)) == id
  }

  /** What the generator makes of 32 random bytes. */
  function GeneratedId(bytes: Bytes): Id { Base64Url.Encode(bytes) }

  ghost predicate Generated(id: Id) { exists bytes: Bytes :: |bytes| == 32 && GeneratedId(bytes) == id }

  lemma GeneratedIsValid(bytes: Bytes)
    requires |bytes| == 32
    ensures ValidSessionId(GeneratedId(bytes))
  {
    hide Base64Url.Encode, Base64Url.Decode;
    Base64Url.EncodeIsCanonical(bytes);
    Base64Url.DecodeEncode(bytes);
  }

  /** The valid identifiers are exactly those the generator can make. */
  lemma ValidIsGenerated(id: Id)
    ensures ValidSessionId(id) <==> Generated(id)
  {
    hide Base64Url.Encode, Base64Url.Decode, Base64Url.Canonical;
    if ValidSessionId(id) {
      assert GeneratedId(Base64Url.Decode(id)) == id;
    }
    if Generated(id) {
      var bytes: Bytes :| |bytes| == 32 && GeneratedId(bytes) == id;
      GeneratedIsValid(bytes);
    }
  }

  /** Different random bytes make different identifiers. */
  lemma GeneratedApart(a: Bytes, b: Bytes)
    requires GeneratedId(a) == GeneratedId(b)
    ensures a == b
  {
    Base64Url.DecodeEncode(a);
    Base64Url.DecodeEncode(b);
  }

  /** What Go accepts as an identifier, the script accepts as well. */
  lemma ValidIdsPassTheScript(id: Id)
    requires ValidSessionId(id)
    ensures ScriptAcceptsId(id)
  {
    hide Base64Url.Encode, Base64Url.Decode;
    forall c | c in id ensures '0' <= c <= '9' || 'A' <= c <= 'Z' || 'a' <= c <= 'z' || c == '_' || c == '-' {
      var i :| 0 <= i < 43 && id[i] == c;
      assert Base64Url.Value(id[i]) >= 0;
    }
  }

  const NANOS_PER_MILLI := 1_000_000
  const MAX_DURATION := 9223372036854775807

  /** A Go duration in nanoseconds that validateTTL lets through. */
  predicate ValidTtl(ttl: int) {
    NANOS_PER_MILLI <= ttl <= MAX_DURATION
  }

  /** The latest clock for which every valid lifetime ends below the largest safe integer. */
  const LATEST_CLOCK := MAX_SAFE_INTEGER - MAX_DURATION / NANOS_PER_MILLI

  /** decodeSession. */
  function Decode(row: Row): Outcome<GoSession> {
    var identity := Decoded(row.identity);
    if identity.None? || row.version != 1 || !ValidSessionId(row.id) || Blank(identity.value.user)
       || identity.value.user != row.user || row.createdAt <= 0 || row.expiresAt <= row.createdAt
    then Failed(CorruptSession)
    else Done(GoSession(row.id, identity.value, row.createdAt, row.expiresAt))
  }

  /** A record is taken for a session exactly if it is of version 1, its identifier one the generator makes, its
      identity decodes to one of the same user, who is not blank, and its times are in order. */
  lemma DecodeExactly(row: Row)
    ensures Decode(row).Done? <==>
            && row.version == 1 && Generated(row.id) && 0 < row.createdAt < row.expiresAt
            && Decoded(row.identity).Some? && Decoded(row.identity).value.user == row.user && !Blank(row.user)
    ensures Decode(row).Done? ==> Decode(row).value == GoSession(row.id, Decoded(row.identity).value, row.createdAt, row.expiresAt)
  {
    ValidIsGenerated(row.id);
    hide ValidSessionId, Generated, Decoded, Blank;
  }

  function DecodeFor(row: Row, id: Id): Outcome<GoSession> {
    var r := Decode(row);
    if r.Done? && r.value.id != id then Failed(CorruptSession) else r
  }

  /** The replies of `run` for the operations that return one session. */
  function ReadOutcome(reply: Reply, id: Id): Outcome<GoSession> {
    match reply
    case Ok(rows) => if |rows| == 1 then DecodeFor(rows[0], id) else Failed(CorruptSession)
    case Missing => NotFound
    case _ => Failed(CorruptSession)
  }

  function CreateOutcome(reply: Reply, id: Id, user: User): Outcome<GoSession> {
    match reply
    case Ok(rows) =>
      if |rows| != 1 then Failed(CorruptSession)
      else var r := DecodeFor(rows[0], id);
           if r.Done? && r.value.identity.user != user then Failed(CorruptSession) else r
    case Collision => Failed(SessionCollision)
    case _ => Failed(CorruptSession)
  }

  /** One attempt: the 32 bytes the random source yields, if it does, and the database and clock the attempt
      finds, whatever other clients and time have made of them meanwhile. */
  datatype Attempt = Attempt(random: Option<Bytes>, db: Db, now: int)

  /** Attempts in turn until one does not collide; `db` is what the last one left. */
  ghost function Attempts(db: Db, identity: Identity, ttl: int, limit: int, attempts: seq<Attempt>): (Db, Outcome<GoSession>)
    decreases |attempts|
  {
    if attempts == [] then (db, Failed(SessionCollision))
    else
      var a := attempts[0];
      if a.random.None? then (a.db, Failed(NoRandomness))
      else
        var id := GeneratedId(a.random.value);
        var (db', reply) := Exec(a.db, a.now, Create(id, identity.user, identity, ttl, limit));
        if reply == Collision then Attempts(db', identity, ttl, limit, attempts[1..])
        else (db', CreateOutcome(reply, id, identity.user))
  }

  function ListOutcome(rows: seq<Row>, user: User): Outcome<seq<GoSession>> {
    if rows == [] then Done([])
    else
      var first := Decode(rows[0]);
      if !first.Done? || first.value.identity.user != user then Failed(CorruptSession)
      else match ListOutcome(rows[1..], user)
        case Done(rest) => Done([first.value] + rest)
        case other => other
  }

  function Prepend(sessions: seq<GoSession>, r: Outcome<seq<GoSession>>): Outcome<seq<GoSession>> {
    if r.Done? then Done(sessions + r.value) else r
  }

  lemma PrependNone(r: Outcome<seq<GoSession>>)
    ensures Prepend([], r) == r
  {
    if r.Done? { assert [] + r.value == r.value; }
  }

  lemma PrependOne(sessions: seq<GoSession>, rows: seq<Row>, user: User)
    requires rows != [] && Decode(rows[0]).Done? && Decode(rows[0]).value.identity.user == user
    ensures Prepend(sessions, ListOutcome(rows, user))
         == Prepend(sessions + [Decode(rows[0]).value], ListOutcome(rows[1..], user))
  {
    var tail := ListOutcome(rows[1..], user);
    if tail.Done? {
      assert sessions + ([Decode(rows[0]).value] + tail.value) == sessions + [Decode(rows[0]).value] + tail.value;
    }
  }

  class Store {
    const redis: Redis
    const limit: int

    constructor (redis: Redis, maxSessionsPerUser: nat)
      ensures this.redis == redis
      ensures maxSessionsPerUser > 0 ==> limit == maxSessionsPerUser
      ensures maxSessionsPerUser == 0 ==> limit == 10
    {
      this.redis := redis;
      this.limit := if maxSessionsPerUser == 0 then 10 else maxSessionsPerUser;
    }

    /** What other clients and time have made of Redis by now. */
    method Meanwhile(db: Db, now: int)
      modifies redis
      ensures redis.db == db && redis.now == now
    {
      redis.db, redis.now := db, now;
    }

    method Create(identity: Identity, ttl: int, attempts: seq<Attempt>) returns (r: Outcome<GoSession>)
      requires limit >= 1 && ttl <= MAX_DURATION
      requires |attempts| == 3 && attempts[0].db == redis.db && attempts[0].now == redis.now
      requires forall i :: 0 <= i < 3 ==> ProperDb(attempts[i].db) && attempts[i].now > 0
      requires forall i :: 0 <= i < 3 && attempts[i].random.Some? ==> |attempts[i].random.value| == 32
      modifies redis
      ensures Blank(identity.user) || !ValidTtl(ttl) ==> r == Failed(InvalidInput) && redis.db == old(redis.db)
      ensures !Blank(identity.user) && ValidTtl(ttl) && !Encodable(identity) ==> r == Failed(NotEncodable) && redis.db == old(redis.db)
      ensures !Blank(identity.user) && ValidTtl(ttl) && Encodable(identity) ==>
                (redis.db, r) == Attempts(old(redis.db), identity, ttl / NANOS_PER_MILLI, limit, attempts)
    {
      hide Exec, Blank, Encodable, ProperDb;
      if Blank(identity.user) { return Failed(InvalidInput); }
      if ttl < NANOS_PER_MILLI { return Failed(InvalidInput); }
      if !Encodable(identity) { return Failed(NotEncodable); }
      ghost var whole := Attempts(redis.db, identity, ttl / NANOS_PER_MILLI, limit, attempts);
      var i := 0;
      while i < 3
        invariant 0 <= i <= 3
        invariant Attempts(redis.db, identity, ttl / NANOS_PER_MILLI, limit, attempts[i..]) == whole
      {
        var a := attempts[i];
        assert attempts[i..][0] == a && attempts[i..][1..] == attempts[i + 1..];
        Meanwhile(a.db, a.now);
        if a.random.None? { return Failed(NoRandomness); }
        var id := GeneratedId(a.random.value);
        var reply := redis.Eval(SessionScript.Create(id, identity.user, identity, ttl / NANOS_PER_MILLI, limit));
        if reply != Collision {
          return CreateOutcome(reply, id, identity.user);
        }
        i := i + 1;
      }
      return Failed(SessionCollision);
    }

    method Lookup(id: Id) returns (r: Outcome<GoSession>)
      requires ProperDb(redis.db) && redis.now > 0
      modifies redis`db
      ensures !ValidSessionId(id) ==> r == NotFound && redis.db == old(redis.db)
      ensures ValidSessionId(id) ==>
                redis.db == Exec(old(redis.db), redis.now, SessionScript.Lookup(id)).0
                && r == ReadOutcome(Exec(old(redis.db), redis.now, SessionScript.Lookup(id)).1, id)
    {
      if !ValidSessionId(id) { return NotFound; }
      var reply := redis.Eval(SessionScript.Lookup(id));
      r := ReadOutcome(reply, id);
    }

    method Renew(id: Id, ttl: int) returns (r: Outcome<GoSession>)
      requires ProperDb(redis.db) && redis.now > 0 && ttl <= MAX_DURATION
      modifies redis`db
      ensures !ValidTtl(ttl) ==> r == Failed(InvalidInput) && redis.db == old(redis.db)
      ensures ValidTtl(ttl) && !ValidSessionId(id) ==> r == NotFound && redis.db == old(redis.db)
      ensures ValidTtl(ttl) && ValidSessionId(id) ==>
                var call := SessionScript.Renew(id, ttl / NANOS_PER_MILLI);
                redis.db == Exec(old(redis.db), redis.now, call).0
                && r == ReadOutcome(Exec(old(redis.db), redis.now, call).1, id)
    {
      if ttl < NANOS_PER_MILLI { return Failed(InvalidInput); }
      if !ValidSessionId(id) { return NotFound; }
      var reply := redis.Eval(SessionScript.Renew(id, ttl / NANOS_PER_MILLI));
      r := ReadOutcome(reply, id);
    }

    /** The loop that decodes each listed row and checks its owner. */
    method ListByUser(user: User) returns (r: Outcome<seq<GoSession>>)
      requires ProperDb(redis.db) && redis.now > 0
      modifies redis`db
      ensures Blank(user) ==> r == Failed(InvalidInput) && redis.db == old(redis.db)
      ensures !Blank(user) ==>
                var (db', reply) := Exec(old(redis.db), redis.now, List(user));
                redis.db == db' && r == if reply.Ok? then ListOutcome(reply.rows, user) else Failed(CorruptSession)
    {
      hide Exec, Decode, Blank, ProperDb;
      if Blank(user) { return Failed(InvalidInput); }
      var reply := redis.Eval(List(user));
      if !reply.Ok? { return Failed(CorruptSession); }
      var sessions := [];
      var i := 0;
      assert reply.rows[0..] == reply.rows;
      PrependNone(ListOutcome(reply.rows, user));
      while i < |reply.rows|
        invariant redis.db == Exec(old(redis.db), redis.now, List(user)).0
        invariant 0 <= i <= |reply.rows|
        invariant Prepend(sessions, ListOutcome(reply.rows[i..], user)) == ListOutcome(reply.rows, user)
      {
        var s := Decode(reply.rows[i]);
        assert reply.rows[i..][0] == reply.rows[i] && reply.rows[i..][1..] == reply.rows[i + 1..];
        if !s.Done? || s.value.identity.user != user { return Failed(CorruptSession); }
        PrependOne(sessions, reply.rows[i..], user);
        sessions := sessions + [s.value];
        i := i + 1;
      }
      assert reply.rows[i..] == [];
      assert ListOutcome(reply.rows[i..], user) == Done([]) && sessions + [] == sessions;
      return Done(sessions);
    }

    /** Revoking is idempotent: an identifier that names nothing is no error. */
    method Revoke(id: Id) returns (r: Outcome<()>)
      requires ProperDb(redis.db) && redis.now > 0
      modifies redis`db
      ensures !ValidSessionId(id) ==> r == Done(()) && redis.db == old(redis.db)
      ensures ValidSessionId(id) ==>
                var (db', reply) := Exec(old(redis.db), redis.now, SessionScript.Revoke(id));
                redis.db == db' && r == if reply == Missing || reply == Ok([]) then Done(()) else Failed(CorruptSession)
    {
      if !ValidSessionId(id) { return Done(()); }
      var reply := redis.Eval(SessionScript.Revoke(id));
      r := if reply == Missing || reply == Ok([]) then Done(()) else Failed(CorruptSession);
    }

    method RevokeByUser(user: User) returns (r: Outcome<()>)
      requires ProperDb(redis.db) && redis.now > 0
      modifies redis`db
      ensures Blank(user) ==> r == Failed(InvalidInput) && redis.db == old(redis.db)
      ensures !Blank(user) ==>
                var (db', reply) := Exec(old(redis.db), redis.now, RevokeUser(user));
                redis.db == db' && r == if reply == Ok([]) then Done(()) else Failed(CorruptSession)
    {
      if Blank(user) { return Failed(InvalidInput); }
      var reply := redis.Eval(RevokeUser(user));
      r := if reply == Ok([]) then Done(()) else Failed(CorruptSession);
    }
  }

  // ----- the store over a sound database -----

  /** Every session of the ledger was created by this store, and Go can decode its identity. */
  ghost predicate GoLedger(ledger: Ledger, now: int) {
    forall id :: id in ledger ==>
      && Generated(id) && !Blank(ledger[id].user)
      && Decoded(ledger[id].identity).Some? && Decoded(ledger[id].identity).value.user == ledger[id].user
      && 0 < ledger[id].createdAt <= now && ledger[id].createdAt < ledger[id].expiresAt
  }

  function GoView(id: Id, s: Session): GoSession
    requires Decoded(s.identity).Some?
  {
    GoSession(id, Decoded(s.identity).value, s.createdAt, s.expiresAt)
  }

  lemma DecodesLedger(ledger: Ledger, now: int, id: Id)
    requires GoLedger(ledger, now) && id in ledger
    ensures Decoded(ledger[id].identity).Some? && Decoded(ledger[id].identity).value.user == ledger[id].user
    ensures ValidSessionId(id) && Decode(RowOf(id, ledger[id])) == Done(GoView(id, ledger[id]))
  {
    hide Decoded, ValidSessionId, Generated, Blank;
    ValidIsGenerated(id);
  }

  /** A call of the Go side: identifiers come from the generator and users are not blank. */
  ghost predicate GoCall(call: Call) {
    call.Create? ==> Generated(call.id) && !Blank(call.user) && Readable(call)
  }

  lemma NextKeepsGoLedger(ledger: Ledger, now: int, issued: set<Id>, call: Call)
    requires GoLedger(ledger, now) && now > 0 && Admissible(now, issued, call) && GoCall(call)
    ensures GoLedger(Next(ledger, now, call), now)
  {
    hide Blank, Generated, Displaced, Decoded, Encoded, Encodable, Depth;
    if call.Create? { RoundTrip(call.identity); }
  }

  /** The first of the random bytes were never drawn before: the identifier they make names nothing yet. */
  predicate FreshStart(issued: set<Id>, db: Db, now: int, attempts: seq<Attempt>) {
    && attempts != [] && attempts[0].db == db && attempts[0].now == now
    && attempts[0].random.Some? && |attempts[0].random.value| == 32 && GeneratedId(attempts[0].random.value) !in issued
  }

  lemma CreatedIsRecalled(ledger: Ledger, now: int, call: Call)
    requires call.Create? && call.ttl > 0
    ensures Recall(Next(ledger, now, call), now, call.id)
         == Some(Session(call.user, Encoded(call.identity), now, now + call.ttl))
  {
  }

  /** Lookup and Renew report exactly the ledger's live session, for any text given as an identifier. */
  lemma ReadsTheLedger(db: Db, now: int, issued: set<Id>, ledger: Ledger, id: Id, ttl: int)
    requires Inv(db, now, issued) && Agrees(db, now, ledger) && GoLedger(ledger, now)
    requires ValidTtl(ttl) && now <= LATEST_CLOCK
    ensures !ValidSessionId(id) ==> Recall(ledger, now, id) == None
    ensures ReadOutcome(Exec(db, now, Lookup(id)).1, id)
         == match Recall(ledger, now, id) case Some(s) => Done(GoView(id, s)) case None => NotFound
    ensures ReadOutcome(Exec(db, now, Renew(id, ttl / NANOS_PER_MILLI)).1, id)
         == match Recall(ledger, now, id)
            case Some(s) => Done(GoView(id, s.(expiresAt := now + ttl / NANOS_PER_MILLI)))
            case None => NotFound
  {
    hide Exec, Inv, Agrees, ValidSessionId, Generated, Blank;
    var ms := ttl / NANOS_PER_MILLI;
    CallRefines(db, now, issued, ledger, Lookup(id));
    CallRefines(db, now, issued, ledger, Renew(id, ms));
    if Recall(ledger, now, id).Some? {
      DecodesLedger(ledger, now, id);
      DecodesLedger(map[id := ledger[id].(expiresAt := now + ms)], now, id);
    }
  }

  lemma NotBlankNotEmpty(user: User)
    requires !Blank(user)
    ensures user != ""
  {
  }

  /** With any 32 random bytes not drawn before Create succeeds at once. The ledger gains exactly that session,
      decoding what was stored gives back the identity, and the lookup that follows finds it. */
  lemma CreateSucceeds(db: Db, now: int, issued: set<Id>, ledger: Ledger, identity: Identity, ttl: int, limit: int, attempts: seq<Attempt>)
    requires Inv(db, now, issued) && Agrees(db, now, ledger) && GoLedger(ledger, now)
    requires !Blank(identity.user) && ValidTtl(ttl) && now <= LATEST_CLOCK && limit >= 1
    requires Encodable(identity) && Depth(Encoded(identity)) <= SCRIPT_DEPTH
    requires FreshStart(issued, db, now, attempts)
    ensures var id := GeneratedId(attempts[0].random.value);
            var call := Create(id, identity.user, identity, ttl / NANOS_PER_MILLI, limit);
            var (db', r) := Attempts(db, identity, ttl / NANOS_PER_MILLI, limit, attempts);
            && r == Done(GoSession(id, identity, now, now + ttl / NANOS_PER_MILLI))
            && ValidSessionId(id) && ReadOutcome(Exec(db', now, Lookup(id)).1, id) == r
            && Inv(db', now, issued + {id}) && Agrees(db', now, Next(ledger, now, call))
            && GoLedger(Next(ledger, now, call), now)
  {
    hide Exec, Inv, Agrees, Encoded, Encodable, Decoded, Depth, Base64Url.Encode, ValidSessionId, Blank, Recall, Displaced;
    var id, ms := GeneratedId(attempts[0].random.value), ttl / NANOS_PER_MILLI;
    var call := Create(id, identity.user, identity, ms, limit);
    GeneratedIsValid(attempts[0].random.value);
    assert Generated(id);
    hide Generated, GeneratedId;
    ValidIdsPassTheScript(id);
    NotBlankNotEmpty(identity.user);
    PositiveClock(db, now, issued);
    CallRefines(db, now, issued, ledger, call);
    NextKeepsGoLedger(ledger, now, issued, call);
    DecodesLedger(Next(ledger, now, call), now, id);
    RoundTrip(identity);
    var db' := Exec(db, now, call).0;
    ReadsTheLedger(db', now, issued + {id}, Next(ledger, now, call), id, ttl);
    CreatedIsRecalled(ledger, now, call);
  }

  /** The identifier of the attempt names something already. */
  predicate Collides(a: Attempt) {
    a.random.Some? && SessionKey(GeneratedId(a.random.value)) in a.db
  }

  /** Collisions are passed over, as many as there are: Create goes on with the first attempt that does not collide,
      on what Redis holds by then, and reports a collision only if all attempts collided. */
  lemma {:induction false} CollisionsAreRetried(db: Db, identity: Identity, ttl: int, limit: int, attempts: seq<Attempt>, k: nat)
    requires k <= |attempts| && forall i :: 0 <= i < k ==> Collides(attempts[i])
    ensures Attempts(db, identity, ttl, limit, attempts)
         == Attempts(if k == 0 then db else attempts[k - 1].db, identity, ttl, limit, attempts[k..])
    ensures k == |attempts| > 0 ==> Attempts(db, identity, ttl, limit, attempts) == (attempts[k - 1].db, Failed(SessionCollision))
    decreases |attempts|
  {
    hide GeneratedId, CreateOutcome;
    if k == 0 {
      assert attempts[0..] == attempts;
    } else {
      assert Collides(attempts[0]);
      assert attempts[1..][k - 1..] == attempts[k..];
      assert forall i :: 0 <= i < k - 1 ==> attempts[1..][i] == attempts[i + 1];
      CollisionsAreRetried(attempts[0].db, identity, ttl, limit, attempts[1..], k - 1);
    }
  }

  /** Over a sound database Create reports a session if and only if Go can decode the identity again. Between the
      script's limit and Go's it reports a session nobody can look up (SessionCorruption). */
  lemma CreateReportsByDepth(db: Db, now: int, issued: set<Id>, identity: Identity, ttl: int, limit: int, attempts: seq<Attempt>)
    requires Inv(db, now, issued) && !Blank(identity.user) && ValidTtl(ttl) && now <= LATEST_CLOCK && limit >= 1
    requires Encodable(identity) && FreshStart(issued, db, now, attempts)
    ensures Attempts(db, identity, ttl / NANOS_PER_MILLI, limit, attempts).1
         == if Depth(Encoded(identity)) <= GO_DEPTH
            then Done(GoSession(GeneratedId(attempts[0].random.value), identity, now, now + ttl / NANOS_PER_MILLI))
            else Failed(CorruptSession)
  {
    hide Exec, Inv, Encoded, Encodable, Decoded, Depth, Base64Url.Encode, ValidSessionId;
    var id, ms := GeneratedId(attempts[0].random.value), ttl / NANOS_PER_MILLI;
    var call := Create(id, identity.user, identity, ms, limit);
    GeneratedIsValid(attempts[0].random.value);
    ValidIdsPassTheScript(id);
    NotBlankNotEmpty(identity.user);
    PositiveClock(db, now, issued);
    CreateStores(db, now, issued, call);
    RoundTrip(identity);
  }

  ghost predicate GoEvents(events: seq<Event>) {
    forall i :: 0 <= i < |events| && events[i].Run? ==> GoCall(events[i].call)
  }

  /** Over whole runs the ledger holds only sessions every reader can decode, so that no operation of the
      store ever reports a corrupt session. */
  lemma {:induction false} RunKeepsGoLedger(ledger: Ledger, now: int, issued: set<Id>, events: seq<Event>)
    requires GoLedger(ledger, now) && now > 0 && GoodRun(now, issued, events) && GoEvents(events)
    ensures GoLedger(LedgerAfter(ledger, now, events), ClockAfter(now, events))
    decreases |events|
  {
    hide Blank, Generated, Next, Admissible, Decoded;
    if events != [] {
      assert GoEvents(events[1..]);
      match events[0] {
        case Run(call) =>
          assert GoCall(call);
          NextKeepsGoLedger(ledger, now, issued, call);
          RunKeepsGoLedger(Next(ledger, now, call), now, IssuedBy(issued, call), events[1..]);
        case Wait(ms) => RunKeepsGoLedger(ledger, now + ms, issued, events[1..]);
        case Drop(_) => RunKeepsGoLedger(ledger, now, issued, events[1..]);
      }
    }
  }

  lemma {:induction false} ListDecodes(ledger: Ledger, now: int, user: User, rows: seq<Row>)
    requires GoLedger(ledger, now)
    requires forall i :: 0 <= i < |rows| ==>
               rows[i].id in ledger && ledger[rows[i].id].user == user && rows[i] == RowOf(rows[i].id, ledger[rows[i].id])
    ensures var r := ListOutcome(rows, user);
            r.Done? && |r.value| == |rows|
            && forall i :: 0 <= i < |rows| ==> r.value[i] == GoView(rows[i].id, ledger[rows[i].id])
  {
    hide GoLedger, Decode, Blank, ValidSessionId, Generated;
    if rows != [] {
      DecodesLedger(ledger, now, rows[0].id);
      ListDecodes(ledger, now, user, rows[1..]);
    }
  }

  /** ListByUser returns the user's live sessions, oldest first, and never an error. */
  lemma ListsTheLedger(db: Db, now: int, issued: set<Id>, ledger: Ledger, user: User)
    requires Inv(db, now, issued) && Agrees(db, now, ledger) && GoLedger(ledger, now)
    ensures var reply := Exec(db, now, List(user)).1;
            && reply.Ok? && Listing(ledger, now, user, reply.rows)
            && ListOutcome(reply.rows, user).Done?
            && |ListOutcome(reply.rows, user).value| == |reply.rows|
            && forall i :: 0 <= i < |reply.rows| ==>
                 ListOutcome(reply.rows, user).value[i] == GoView(reply.rows[i].id, ledger[reply.rows[i].id])
  {
    hide Exec, Inv, Agrees, ProperSet;
    CallRefines(db, now, issued, ledger, List(user));
    var rows := Exec(db, now, List(user)).1.rows;
    forall i | 0 <= i < |rows|
      ensures rows[i].id in ledger && ledger[rows[i].id].user == user && rows[i] == RowOf(rows[i].id, ledger[rows[i].id])
    {
      assert rows[i] in rows;
    }
    ListDecodes(ledger, now, user, rows);
  }
}
