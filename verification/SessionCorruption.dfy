/** The one condition the Go side does not check: an identity nested too deeply for the script's decoder. The
    create succeeds; what it stores then stops every operation on that user. */
module SessionCorruption {
  import Base64Url
  import opened Optional
  import opened SessionIdentity
  import opened SessionScript
  import opened SessionRefinement
  import opened SessionRuns

  // ----- any flaw -----

  /** A record as a create leaves it: with a lifetime in Redis, of version 1, its own name, an identity that is the
      one hashed, an owner, and times in order and no later than a number can hold. */
  predicate Flawless(entry: Entry, id: Id, now: int) {
    && entry.Text? && entry.deadline.Some? && entry.content.Parsed?
    && var row := entry.content.row;
       && row.version == 1 && row.id == id && row.intact && row.user != "" && ScriptReads(row.identity, row.user)
       && 0 < row.createdAt && row.createdAt <= now && row.createdAt < row.expiresAt && row.expiresAt < 0x20_0000_0000_0000
       && |id| == 43 && forall i :: 0 <= i < 43 ==> Base64Url.Value(id[i]) >= 0
  }

  lemma DigitsAreAccepted(id: Id)
    requires |id| == 43
    ensures ScriptAcceptsId(id) <==> forall i :: 0 <= i < 43 ==> Base64Url.Value(id[i]) >= 0
  {
    if ScriptAcceptsId(id) {
      forall i | 0 <= i < 43 ensures Base64Url.Value(id[i]) >= 0 { assert id[i] in id; }
    } else {
      var c :| c in id && !('0' <= c <= '9' || 'A' <= c <= 'Z' || 'a' <= c <= 'z' || c == '_' || c == '-');
      var i :| 0 <= i < 43 && id[i] == c;
      assert Base64Url.Value(id[i]) < 0;
    }
  }

  lemma FlawlessIsLoaded(db: Db, now: int, id: Id)
    requires SessionKey(id) in db
    ensures Load(db, now, id) == if !Flawless(db[SessionKey(id)], id, now) then Broken
                                 else if db[SessionKey(id)].content.row.expiresAt <= now then Absent
                                 else Live(db[SessionKey(id)].content.row)
    ensures Load(db, now, id).Live? ==> Load(db, now, id).row.id == id
  {
    if |id| == 43 { DigitsAreAccepted(id); }
    hide ScriptReads, Base64Url.Value;
  }

  /** A record stored without a flaw and not over. */
  predicate Served(db: Db, now: int, row: Row) {
    && SessionKey(row.id) in db && Flawless(db[SessionKey(row.id)], row.id, now)
    && db[SessionKey(row.id)].content.row == row && now < row.expiresAt
  }

  lemma LoadFrame(db: Db, gone: seq<Id>, now: int, id: Id)
    requires id !in gone
    ensures Load(db - SessionKeys(gone), now, id) == Load(db, now, id)
  {
    hide ProperRow;
  }

  /** A live target is no stale member: cleaning the index leaves it. */
  lemma LoadKept(db: Db, now: int, call: Call, id: Id)
    requires Load(db, now, id).Live?
    ensures forall user :: Load(db - SessionKeys(StaleIds(db, now, IndexItems(db, user))), now, id) == Load(db, now, id)
  {
    hide Load, IndexItems, StaleIds;
    forall user
      ensures Load(db - SessionKeys(StaleIds(db, now, IndexItems(db, user))), now, id) == Load(db, now, id)
    {
      StaleIdsExact(db, now, IndexItems(db, user));
      LoadFrame(db, StaleIds(db, now, IndexItems(db, user)), now, id);
    }
  }

  /** From any contents: what a lookup or a listing answers is stored without a flaw, not over, and the one asked
      for or owned by the user asked for; a renewal changes no more of it than its end. */
  lemma OnlyFlawlessIsServed(db: Db, now: int, call: Call)
    requires Exec(db, now, call).1.Ok?
    ensures var rows := Exec(db, now, call).1.rows;
            match call
            case Lookup(id) => |rows| == 1 && rows[0].id == id && Served(db, now, rows[0])
            case Renew(id, ttl) =>
              |rows| == 1 && rows[0].id == id && SessionKey(id) in db && db[SessionKey(id)].Text?
              && db[SessionKey(id)].content.Parsed?
              && rows[0] == db[SessionKey(id)].content.row.(expiresAt := now + ttl)
              && Served(db, now, db[SessionKey(id)].content.row)
            case List(user) => forall i :: 0 <= i < |rows| ==> rows[i].user == user && Served(db, now, rows[i])
            case _ => true
  {
    hide Flawless, ProperRow, ActiveRows, StaleIds;
    match call {
      case Lookup(id) => if SessionKey(id) in db { FlawlessIsLoaded(db, now, id); LoadKept(db, now, call, id); }
      case Renew(id, _) => if SessionKey(id) in db { FlawlessIsLoaded(db, now, id); LoadKept(db, now, call, id); }
      case List(user) =>
        var items := IndexItems(db, user);
        var rows := ActiveRows(db, now, items);
        forall i | 0 <= i < |rows| ensures rows[i].user == user && Served(db, now, rows[i]) {
          var k := ActiveRowSource(db, now, user, items, i);
          assert SessionKey(items[k].id) in db;
          FlawlessIsLoaded(db, now, items[k].id);
        }
      case _ =>
    }
  }

  /** And a flawed record stops every call that names it and every call on a user whose index lists it: nothing is
      answered and nothing is written. */
  lemma FlawStopsUser(db: Db, now: int, id: Id, user: User, call: Call)
    requires SessionKey(id) in db && !Flawless(db[SessionKey(id)], id, now)
    requires || ((call.Lookup? || call.Renew? || call.Revoke?) && call.id == id)
             || ((call.Create? || call.List? || call.RevokeUser?) && call.user == user
                 && exists i :: 0 <= i < |IndexItems(db, user)| && IndexItems(db, user)[i].id == id)
    ensures Exec(db, now, call) == (db, if call.Create? && SessionKey(call.id) in db then Collision else Corrupt)
  {
    FlawlessIsLoaded(db, now, id);
    hide Load, IndexItems, Writes, Flawless;
    if call.Create? || call.List? || call.RevokeUser? {
      var i :| 0 <= i < |IndexItems(db, user)| && IndexItems(db, user)[i].id == id;
      assert !MemberAgrees(db, now, user, IndexItems(db, user)[i]);
    }
  }

  predicate Wrong(db: Db, now: int, user: User, m: Member) {
    && SessionKey(m.id) in db
    && (!Flawless(db[SessionKey(m.id)], m.id, now)
        || (var row := db[SessionKey(m.id)].content.row; now < row.expiresAt && (row.user != user || row.createdAt != m.score)))
  }

  /** The index is of another type, or lists a flawed record, or one that is not over and of another owner or
      another time of creation. */
  ghost predicate Disagrees(db: Db, now: int, user: User) {
    && UserKey(user) in db
    && (db[UserKey(user)].Sorted? ==>
          exists i :: 0 <= i < |db[UserKey(user)].items| && Wrong(db, now, user, db[UserKey(user)].items[i]))
  }

  lemma WrongExactly(db: Db, now: int, user: User, m: Member)
    ensures Wrong(db, now, user, m) <==> !MemberAgrees(db, now, user, m)
  {
    if SessionKey(m.id) in db { FlawlessIsLoaded(db, now, m.id); }
    hide Flawless, ProperRow;
  }

  lemma DisagreesExactly(db: Db, now: int, user: User)
    ensures Disagrees(db, now, user) <==> !Prechecked(db, now, user, None)
  {
    hide Wrong, MemberAgrees;
    var items := IndexItems(db, user);
    forall i | 0 <= i < |items| ensures Wrong(db, now, user, items[i]) <==> !MemberAgrees(db, now, user, items[i]) {
      WrongExactly(db, now, user, items[i]);
    }
  }

  /** The user's index lists the session. */
  ghost predicate Listed(db: Db, user: User, id: Id) {
    && UserKey(user) in db && db[UserKey(user)].Sorted?
    && exists i :: 0 <= i < |db[UserKey(user)].items| && db[UserKey(user)].items[i].id == id
  }

  lemma TargetExactly(db: Db, now: int, user: User, id: Id)
    requires Load(db, now, id).Live?
    ensures Prechecked(db, now, user, Some(id)) <==> Prechecked(db, now, user, None) && Listed(db, user, id)
  {
    hide Load, MemberAgrees;
    if Prechecked(db, now, user, Some(id)) {
      var i :| 0 <= i < |IndexItems(db, user)| && IndexItems(db, user)[i].id == id;
      assert db[UserKey(user)].items[i].id == id;
    }
    if Prechecked(db, now, user, None) && Listed(db, user, id) {
      var i :| 0 <= i < |db[UserKey(user)].items| && db[UserKey(user)].items[i].id == id;
      assert IndexItems(db, user)[i].id == id;
    }
  }

  lemma WritesAnswer(db: Db, now: int, call: Call, user: User, rows: seq<Row>)
    ensures Writes(db, now, call, user, rows).1 != Corrupt
  {
    hide Load, Settle, ExtendRow, DropRow, RowKeys, Insert, MembersOf, NewRow;
  }

  /** From any contents: a call is answered SESSION_CORRUPT exactly if the record it names is flawed, or is not over
      and not listed by its owner, or the index of the user concerned disagrees with what it lists. */
  lemma CorruptExactly(db: Db, now: int, call: Call)
    ensures Exec(db, now, call).1 == Corrupt <==>
            match call
            case Create(id, user, _, _, _) => SessionKey(id) !in db && Disagrees(db, now, user)
            case List(user) => Disagrees(db, now, user)
            case RevokeUser(user) => Disagrees(db, now, user)
            case _ =>
              SessionKey(call.id) in db
              && (!Flawless(db[SessionKey(call.id)], call.id, now)
                  || (var row := db[SessionKey(call.id)].content.row;
                      now < row.expiresAt && (Disagrees(db, now, row.user) || !Listed(db, row.user, call.id))))
  {
    var target := if call.Lookup? || call.Renew? || call.Revoke? then Some(call.id) else None;
    if target.None? {
      DisagreesExactly(db, now, call.user);
    } else if SessionKey(call.id) in db {
      FlawlessIsLoaded(db, now, call.id);
      if Load(db, now, call.id).Live? {
        var user := Load(db, now, call.id).row.user;
        DisagreesExactly(db, now, user);
        TargetExactly(db, now, user, call.id);
      }
    } else {
      assert Load(db, now, call.id) == Absent;
    }
    hide Flawless, Disagrees, Listed, Prechecked, Load, ActiveRows, StaleIds, Writes;
    forall db0, user, rows ensures Writes(db0, now, call, user, rows).1 != Corrupt { WritesAnswer(db0, now, call, user, rows); }
  }

  // ----- an identity nested too deeply -----

  /** A record the script will never be able to read, listed in the user's index. */
  ghost predicate Poisoned(db: Db, id: Id, user: User) {
    && SessionKey(id) in db && db[SessionKey(id)].Text? && db[SessionKey(id)].content.Parsed?
    && !ScriptReads(db[SessionKey(id)].content.row.identity, db[SessionKey(id)].content.row.user)
    && UserKey(user) in db && db[UserKey(user)].Sorted?
    && exists i :: 0 <= i < |db[UserKey(user)].items| && db[UserKey(user)].items[i].id == id
  }

  lemma PoisonIsBroken(db: Db, now: int, id: Id, user: User)
    requires Poisoned(db, id, user)
    ensures Load(db, now, id) == Broken && !Prechecked(db, now, user, None)
  {
    hide ScriptReads;
    var i :| 0 <= i < |IndexItems(db, user)| && IndexItems(db, user)[i].id == id;
    assert !MemberAgrees(db, now, user, IndexItems(db, user)[i]);
  }

  /** The call names the user, the record, or another live session of the user. */
  predicate Concerns(db: Db, now: int, call: Call, id: Id, user: User) {
    if call.Create? || call.List? || call.RevokeUser? then call.user == user
    else call.id == id || (Load(db, now, call.id).Live? && Load(db, now, call.id).row.user == user)
  }

  /** Every call that concerns the user fails and writes nothing, whatever the rest of the database holds. */
  lemma {:induction false} PoisonStopsUser(db: Db, now: int, id: Id, user: User, call: Call)
    requires Poisoned(db, id, user) && Concerns(db, now, call, id, user)
    ensures Exec(db, now, call) == (db, if call.Create? && SessionKey(call.id) in db then Collision else Corrupt)
  {
    hide Poisoned, Load, Writes;
    PoisonIsBroken(db, now, id, user);
  }

  // ----- nothing takes the poison away but Redis dropping the keys -----

  ghost predicate SameEntries(db: Db, db': Db, id: Id, user: User) {
    && SessionKey(id) in db && SessionKey(id) in db' && db'[SessionKey(id)] == db[SessionKey(id)]
    && UserKey(user) in db && UserKey(user) in db' && db'[UserKey(user)] == db[UserKey(user)]
  }

  /** Another user's index may list the record as little as its own: its rows and stale members are readable. */
  lemma OtherIndexSpares(db: Db, now: int, id: Id, user: User, other: User)
    requires Poisoned(db, id, user) && Prechecked(db, now, other, None)
    ensures SessionKey(id) !in SessionKeys(StaleIds(db, now, IndexItems(db, other)))
    ensures SessionKey(id) !in RowKeys(ActiveRows(db, now, IndexItems(db, other)))
  {
    hide Poisoned, Load, ActiveRows, StaleIds;
    var items := IndexItems(db, other);
    var rows := ActiveRows(db, now, items);
    PoisonIsBroken(db, now, id, user);
    forall i | 0 <= i < |items| ensures items[i].id != id { assert MemberAgrees(db, now, other, items[i]); }
    StaleAreMembers(db, now, items);
    assert id !in StaleIds(db, now, items);
    forall k | 0 <= k < |rows| ensures rows[k].id != id {
      var i := ActiveRowSource(db, now, other, items, k);
      assert items[i].id == rows[k].id;
    }
  }

  /** What the writes of a run for one user keep. */
  lemma WritesSpare(db: Db, now: int, call: Call, other: User, rows: seq<Row>, key: Key)
    requires key in db && key != UserKey(other) && key !in RowKeys(rows)
    requires call.Create? || call.Renew? || call.Revoke? ==> key != SessionKey(call.id)
    ensures key in Writes(db, now, call, other, rows).0 && Writes(db, now, call, other, rows).0[key] == db[key]
  {
    hide Load, RowKeys, MembersOf, Insert, MaxExpiry, ExtendRow, DropRow, NewRow;
    EvictedAreRows(rows);
  }

  lemma PrecheckedWeaker(db: Db, now: int, user: User, call: Call)
    ensures Prechecked(db, now, user, if call.Lookup? || call.Renew? || call.Revoke? then Some(call.id) else None)
        ==> Prechecked(db, now, user, None)
  {
  }

  lemma NoUserKey(ids: seq<Id>, rows: seq<Row>, user: User)
    ensures UserKey(user) !in SessionKeys(ids) && UserKey(user) !in RowKeys(rows)
  {
  }

  lemma OtherSubject(db: Db, now: int, id: Id, user: User, call: Call)
    requires !Concerns(db, now, call, id, user)
    ensures call.Create? || call.List? || call.RevokeUser? || Load(db, now, call.id).Live? ==> Subject(db, now, call) != user
    ensures call.Lookup? || call.Renew? || call.Revoke? ==> call.id != id
  {
  }

  lemma OtherCallSpares(db: Db, now: int, id: Id, user: User, call: Call)
    requires Poisoned(db, id, user) && !Concerns(db, now, call, id, user)
    ensures SameEntries(db, Exec(db, now, call).0, id, user)
  {
    hide Load, ActiveRows, StaleIds, RowKeys, SessionKeys, IndexItems, Concerns, Writes, Prechecked;
    PoisonIsBroken(db, now, id, user);
    OtherSubject(db, now, id, user, call);
    var other := Subject(db, now, call);
    var items := IndexItems(db, other);
    PrecheckedWeaker(db, now, other, call);
    if Prechecked(db, now, other, None) && other != user {
      OtherIndexSpares(db, now, id, user, other);
      var cleaned := db - SessionKeys(StaleIds(db, now, items));
      var rows := ActiveRows(db, now, items);
      NoUserKey(StaleIds(db, now, items), rows, user);
      if !(call.Create? && call.id == id) {
        WritesSpare(cleaned, now, call, other, rows, SessionKey(id));
      }
      WritesSpare(cleaned, now, call, other, rows, UserKey(user));
    }
  }

  /** Redis removes neither the record nor the index in this step. */
  ghost predicate Spares(w: World, e: Event, id: Id, user: User) {
    e.Drop? && (e.key == SessionKey(id) || e.key == UserKey(user)) ==> !Expired(w.db, w.now, e.key)
  }

  lemma PoisonStays(w: World, e: Event, id: Id, user: User)
    requires Poisoned(w.db, id, user) && Spares(w, e, id, user)
    ensures SameEntries(w.db, Step(w, e).db, id, user) && Poisoned(Step(w, e).db, id, user)
  {
    hide Exec, ScriptReads, Expired;
    if e.Run? {
      if Concerns(w.db, w.now, e.call, id, user) {
        PoisonStopsUser(w.db, w.now, id, user, e.call);
      } else {
        OtherCallSpares(w.db, w.now, id, user, e.call);
      }
    }
  }

  ghost predicate Spared(w: World, events: seq<Event>, id: Id, user: User)
    decreases |events|
  {
    events == [] || (Spares(w, events[0], id, user) && Spared(Step(w, events[0]), events[1..], id, user))
  }

  lemma {:induction false} PoisonLasts(w: World, events: seq<Event>, id: Id, user: User)
    requires Poisoned(w.db, id, user) && Spared(w, events, id, user)
    ensures Poisoned(RunAll(w, events).db, id, user)
    decreases |events|
  {
    hide Poisoned, Step, Spares;
    if events != [] {
      PoisonStays(w, events[0], id, user);
      PoisonLasts(Step(w, events[0]), events[1..], id, user);
    }
  }

  /** Both keys are due only at `until` or later. */
  ghost predicate Due(db: Db, id: Id, user: User, until: int) {
    && SessionKey(id) in db && db[SessionKey(id)].Text? && db[SessionKey(id)].deadline == Some(until)
    && UserKey(user) in db && db[UserKey(user)].Sorted? && db[UserKey(user)].deadline.Some?
    && db[UserKey(user)].deadline.value >= until
  }

  lemma {:induction false} ClockAdvances(now: int, events: seq<Event>)
    ensures ClockAfter(now, events) >= now
    decreases |events|
  {
    if events != [] { ClockAdvances(if events[0].Wait? then now + events[0].ms else now, events[1..]); }
  }

  /** Before the session's time is up Redis drops neither key. */
  lemma {:induction false} LifetimeSpares(w: World, events: seq<Event>, id: Id, user: User, until: int)
    requires Poisoned(w.db, id, user) && Due(w.db, id, user, until) && ClockAfter(w.now, events) < until
    ensures Spared(w, events, id, user)
    decreases |events|
  {
    hide Poisoned, Exec;
    if events != [] {
      ClockAdvances(w.now, events);
      assert Spares(w, events[0], id, user);
      PoisonStays(w, events[0], id, user);
      LifetimeSpares(Step(w, events[0]), events[1..], id, user, until);
    }
  }

  // ----- what a create stores -----

  lemma CreateStores(db: Db, now: int, issued: set<Id>, call: Call)
    requires Inv(db, now, issued) && call.Create? && Admissible(now, issued, call)
    ensures var (db', reply) := Exec(db, now, call);
            var row := NewRow(now, call.id, call.user, call.identity, call.ttl);
            && reply == Ok([row])
            && SessionKey(call.id) in db' && db'[SessionKey(call.id)] == Text(Parsed(row), Some(now + call.ttl))
            && UserKey(call.user) in db' && db'[UserKey(call.user)].Sorted?
            && (exists i :: 0 <= i < |db'[UserKey(call.user)].items| && db'[UserKey(call.user)].items[i] == MemberOf(row))
            && Due(db', call.id, call.user, now + call.ttl)
  {
    hide ActiveRows, StaleIds, Insert, MembersOf, ProperSet, RecordSound, IndexSound, Covered, MaxExpiry, RowKeys, IndexItems,
         Exec, Inv, Encoded;
    CreateWrites(db, now, issued, call);
    var rows, row := RowsOf(db, now, call.user), NewRow(now, call.id, call.user, call.identity, call.ttl);
    var n := Excess(rows, call.limit);
    MaxExpiryBounds(rows[n..] + [row]);
    assert (rows[n..] + [row])[|rows[n..]|] == row;
    var items := Insert(MembersOf(rows[n..]), MemberOf(row));
    InsertContents(MembersOf(rows[n..]), MemberOf(row));
    assert MemberOf(row) in items;
  }

  /** A create leaves its user poisoned if and only if the identity is nested deeper than the script can decode. */
  lemma CreatePoisonsByDepth(db: Db, now: int, issued: set<Id>, call: Call)
    requires Inv(db, now, issued) && call.Create? && Admissible(now, issued, call)
    ensures Poisoned(Exec(db, now, call).0, call.id, call.user) <==> Depth(Encoded(call.identity)) > SCRIPT_DEPTH
  {
    hide Exec, Inv, ScriptReads, Encoded, Depth, Encodable;
    CreateStores(db, now, issued, call);
    ScriptReadsByDepth(call.identity);
  }

  lemma FreshLookup(db: Db, now: int, issued: set<Id>, call: Call)
    requires Inv(db, now, issued) && call.Create? && Admissible(now, issued, call) && Readable(call)
    ensures Exec(Exec(db, now, call).0, now, Lookup(call.id)).1
         == Ok([NewRow(now, call.id, call.user, call.identity, call.ttl)])
  {
    hide ActiveRows, StaleIds, ProperSet, RecordSound, IndexSound, Covered, MaxExpiry, RowKeys, ScriptReads, Encoded;
    var row := NewRow(now, call.id, call.user, call.identity, call.ttl);
    var db' := Exec(db, now, call).0;
    ScriptReadsByDepth(call.identity);
    CreateStores(db, now, issued, call);
    CreateAdds(db, now, issued, call.id, call.user, call.identity, call.ttl, call.limit);
    CreateWrites(db, now, issued, call);
    assert Load(db', now, call.id) == Live(row);
    TargetPrechecked(db', now, issued + {call.id}, call.id);
    CleanedLoads(db', now, IndexItems(db', call.user), call.id);
  }

  /** Every create succeeds; its session can then be looked up if and only if the identity is not nested deeper
      than the script can decode. */
  lemma CreatedSessionIsReadable(db: Db, now: int, issued: set<Id>, call: Call)
    requires Inv(db, now, issued) && call.Create? && Admissible(now, issued, call)
    ensures var (db', reply) := Exec(db, now, call);
            && reply == Ok([NewRow(now, call.id, call.user, call.identity, call.ttl)])
            && Exec(db', now, Lookup(call.id)).1
               == (if Depth(Encoded(call.identity)) <= SCRIPT_DEPTH then reply else Corrupt)
  {
    hide Exec, Inv, RecordSound, Load, ScriptReads, Encoded, Depth, Encodable;
    var row := NewRow(now, call.id, call.user, call.identity, call.ttl);
    var db' := Exec(db, now, call).0;
    CreateStores(db, now, issued, call);
    ScriptReadsByDepth(call.identity);
    if Depth(Encoded(call.identity)) <= SCRIPT_DEPTH {
      FreshLookup(db, now, issued, call);
    } else {
      PoisonStopsUser(db', now, call.id, call.user, Lookup(call.id));
    }
  }

  /** After such a create, for as long as Redis keeps the record and the index, whatever all clients do meanwhile:
      every call on the user, on that session or on another live session of the user answers Corrupt (a create
      whose identifier is taken, Collision) and writes nothing. */
  lemma TooDeepStopsUser(db: Db, now: int, issued: set<Id>, create: Call, events: seq<Event>, call: Call)
    requires Inv(db, now, issued) && create.Create? && Admissible(now, issued, create)
    requires Depth(Encoded(create.identity)) > SCRIPT_DEPTH
    requires Spared(Step(World(db, now, issued), Run(create)), events, create.id, create.user)
    requires var end := RunAll(Step(World(db, now, issued), Run(create)), events);
             Concerns(end.db, end.now, call, create.id, create.user)
    ensures var end := RunAll(Step(World(db, now, issued), Run(create)), events);
            Exec(end.db, end.now, call) == (end.db, if call.Create? && SessionKey(call.id) in end.db then Collision else Corrupt)
  {
    hide Inv, Exec, Poisoned, Concerns, Spared, Admissible, RunAll, Depth, Encoded;
    var w := Step(World(db, now, issued), Run(create));
    CreatePoisonsByDepth(db, now, issued, create);
    PoisonLasts(w, events, create.id, create.user);
    var end := RunAll(w, events);
    PoisonStopsUser(end.db, end.now, create.id, create.user, call);
  }

  /** Redis keeps them at least until the session's time is up. */
  lemma TooDeepLastsItsLifetime(db: Db, now: int, issued: set<Id>, create: Call, events: seq<Event>)
    requires Inv(db, now, issued) && create.Create? && Admissible(now, issued, create)
    requires Depth(Encoded(create.identity)) > SCRIPT_DEPTH
    requires ClockAfter(now, events) < now + create.ttl
    ensures Spared(Step(World(db, now, issued), Run(create)), events, create.id, create.user)
  {
    hide Inv, Exec, Poisoned, Spared, Admissible, Due, ClockAfter, Depth, Encoded;
    CreateStores(db, now, issued, create);
    CreatePoisonsByDepth(db, now, issued, create);
    LifetimeSpares(Step(World(db, now, issued), Run(create)), events, create.id, create.user, now + create.ttl);
  }

  lemma NestedIdentityUser(user: User, n: nat)
    ensures NestedIdentity(user, n).user == user
  {
  }

  /** The limit is met exactly: one level less and the same create is harmless. */
  lemma OneLevelTooDeep(now: int, n: nat)
    requires 0 < now < MAX_SAFE_INTEGER
    ensures var id := seq(43, _ => 'A');
            var (db, reply) := Exec(map[], now, Create(id, "u", NestedIdentity("u", n), 1, 1));
            && reply.Ok?
            && Exec(db, now, Lookup(id)).1 == (if n + 2 <= SCRIPT_DEPTH then reply else Corrupt)
  {
    hide Exec, Inv, Encoded, Depth, Encodable, NestedIdentity;
    var call := Create(seq(43, _ => 'A'), "u", NestedIdentity("u", n), 1, 1);
    NestedIdentityDepth("u", n);
    NestedIdentityUser("u", n);
    EmptyIsSound(now);
    CreatedSessionIsReadable(map[], now, {}, call);
  }

  // ----- whole runs -----

  /** Every call of the run is one the Go side makes; identities may be nested as deeply as callers like. */
  predicate AdmissibleRun(now: int, issued: set<Id>, events: seq<Event>)
    decreases |events|
  {
    events == [] ||
    match events[0]
    case Run(call) => Admissible(now, issued, call) && AdmissibleRun(now, IssuedBy(issued, call), events[1..])
    case Wait(ms) => AdmissibleRun(now + ms, issued, events[1..])
    case Drop(_) => AdmissibleRun(now, issued, events[1..])
  }

  predicate AllReadable(events: seq<Event>) {
    forall i :: 0 <= i < |events| && events[i].Run? ==> Readable(events[i].call)
  }

  ghost predicate AnswersCleanly(db: Db, now: int) {
    forall call :: Exec(db, now, call).1 != Corrupt
  }

  /** At no point of the run would any call be answered Corrupt. */
  ghost predicate CleanRun(w: World, events: seq<Event>)
    decreases |events|
  {
    AnswersCleanly(w.db, w.now) && (events == [] || CleanRun(Step(w, events[0]), events[1..]))
  }

  lemma SoundAnswers(db: Db, now: int, issued: set<Id>, call: Call)
    requires Inv(db, now, issued)
    ensures Exec(db, now, call).1 != Corrupt
  {
    hide Inv, Load, Prechecked, ActiveRows, StaleIds, Settle;
    if call.Create? || call.List? || call.RevokeUser? {
      SoundPrechecks(db, now, issued, call.user);
    } else {
      NeverBroken(db, now, issued, call.id);
      if Load(db, now, call.id).Live? { TargetPrechecked(db, now, issued, call.id); }
    }
  }

  lemma SoundAnswersCleanly(db: Db, now: int, issued: set<Id>)
    requires Inv(db, now, issued)
    ensures AnswersCleanly(db, now)
  {
    hide Inv, Load, Prechecked, Writes, ActiveRows, StaleIds;
    forall call ensures Exec(db, now, call).1 != Corrupt {
      SoundAnswers(db, now, issued, call);
    }
  }

  lemma UnreadableSpoils(db: Db, now: int, issued: set<Id>, call: Call)
    requires Inv(db, now, issued) && Admissible(now, issued, call) && !Readable(call)
    ensures !AnswersCleanly(Exec(db, now, call).0, now)
  {
    hide Inv, Exec, Admissible;
    CreatedSessionIsReadable(db, now, issued, call);
    assert Exec(Exec(db, now, call).0, now, Lookup(call.id)).1 == Corrupt;
  }

  lemma {:induction false} CleanRunByDepth(w: World, ledger: Ledger, events: seq<Event>)
    requires Inv(w.db, w.now, w.issued) && Agrees(w.db, w.now, ledger)
    requires AdmissibleRun(w.now, w.issued, events)
    ensures CleanRun(w, events) <==> AllReadable(events)
    decreases |events|
  {
    hide Inv, Agrees, Exec, AnswersCleanly, Readable, Admissible, Next, Expired;
    SoundAnswersCleanly(w.db, w.now, w.issued);
    if events != [] {
      var e := events[0];
      var next := Step(w, e);
      assert AllReadable(events) <==> (e.Run? ==> Readable(e.call)) && AllReadable(events[1..]) by {
        assert forall i :: 0 <= i < |events[1..]| ==> events[1..][i] == events[i + 1];
        assert forall i :: 1 <= i < |events| ==> events[i] == events[1..][i - 1];
      }
      match e {
        case Run(call) =>
          if Readable(call) {
            CallRefines(w.db, w.now, w.issued, ledger, call);
            CleanRunByDepth(next, Next(ledger, w.now, call), events[1..]);
          } else {
            UnreadableSpoils(w.db, w.now, w.issued, call);
          }
        case Wait(ms) =>
          WaitRefines(w.db, w.now, w.now + ms, w.issued, ledger);
          CleanRunByDepth(next, ledger, events[1..]);
        case Drop(key) =>
          if Expired(w.db, w.now, key) { DropRefines(w.db, w.now, w.issued, ledger, key); }
          CleanRunByDepth(next, ledger, events[1..]);
      }
    }
  }

  /** From an empty Redis: a run is free of corruption, at every point and for every call, if and only if no
      create in it carries an identity nested deeper than the script can decode. */
  lemma {:induction false} NoCorruptionByDepth(now: int, events: seq<Event>)
    requires now > 0 && AdmissibleRun(now, {}, events)
    ensures CleanRun(Empty(now), events) <==> AllReadable(events)
  {
    EmptyIsSound(now);
    CleanRunByDepth(Empty(now), map[], events);
  }
}
