/** Every run of the session script, interleaved with the passing of time and with Redis dropping
    expired keys, behaves like a ledger of sessions that only calls ever change. */
module SessionRefinement {
  import opened Optional
  import opened SessionIdentity
  import opened SessionScript

  // ----- the ledger: what callers may rely on -----

  datatype Session = Session(user: User, identity: Json, createdAt: int, expiresAt: int)

  type Ledger = map<Id, Session>

  function Recall(ledger: Ledger, now: int, id: Id): Option<Session> {
    if id in ledger && ledger[id].expiresAt > now then Some(ledger[id]) else None
  }

  function RowOf(id: Id, s: Session): Row {
    Row(1, id, s.user, s.identity, true, s.createdAt, s.expiresAt)
  }

  function Stamp(ledger: Ledger, id: Id): Member
    requires id in ledger
  {
    Member(ledger[id].createdAt, id)
  }

  function LiveOf(ledger: Ledger, now: int, user: User): set<Id> {
    set id | id in ledger && ledger[id].user == user && ledger[id].expiresAt > now
  }

  /** The user's live sessions created after this one, ties broken by identifier. */
  function Newer(ledger: Ledger, now: int, user: User, id: Id): set<Id>
    requires id in ledger
  {
    set k | k in LiveOf(ledger, now, user) && Before(Stamp(ledger, id), Stamp(ledger, k))
  }

  /** A new session displaces every live one that already has `limit - 1` newer ones. */
  function Displaced(ledger: Ledger, now: int, user: User, limit: int): set<Id> {
    set id | id in LiveOf(ledger, now, user) && |Newer(ledger, now, user, id)| >= limit - 1
  }

  function Next(ledger: Ledger, now: int, call: Call): Ledger {
    match call
    case Create(id, user, identity, ttl, limit) =>
      (ledger - Displaced(ledger, now, user, limit))[id := Session(user, Encoded(identity), now, now + ttl)]
    case Renew(id, ttl) =>
      if Recall(ledger, now, id).Some? then ledger[id := ledger[id].(expiresAt := now + ttl)] else ledger
    case Revoke(id) => ledger - {id}
    case RevokeUser(user) => ledger - LiveOf(ledger, now, user)
    case _ => ledger
  }

  /** Exactly the user's live sessions, ordered by creation time and then identifier. */
  ghost predicate Listing(ledger: Ledger, now: int, user: User, rows: seq<Row>) {
    && ProperSet(MembersOf(rows))
    && (forall row :: row in rows <==> row.id in LiveOf(ledger, now, user) && row == RowOf(row.id, ledger[row.id]))
  }

  ghost predicate Answers(ledger: Ledger, now: int, call: Call, reply: Reply) {
    match call
    case Create(id, user, identity, ttl, _) => reply == Ok([RowOf(id, Session(user, Encoded(identity), now, now + ttl))])
    case Lookup(id) =>
      reply == (match Recall(ledger, now, id) case Some(s) => Ok([RowOf(id, s)]) case None => Missing)
    case Renew(id, ttl) =>
      reply == (match Recall(ledger, now, id) case Some(s) => Ok([RowOf(id, s.(expiresAt := now + ttl))]) case None => Missing)
    case Revoke(id) => reply == if Recall(ledger, now, id).Some? then Ok([]) else Missing
    case List(user) => reply.Ok? && Listing(ledger, now, user, reply.rows)
    case RevokeUser(_) => reply == Ok([])
  }

  // ----- the invariant of the database -----

  function SessionOf(row: Row): Session { Session(row.user, row.identity, row.createdAt, row.expiresAt) }

  function View(db: Db, now: int, id: Id): Option<Session> {
    match Load(db, now, id)
    case Live(row) => Some(SessionOf(row))
    case _ => None
  }

  predicate Holds(db: Db, row: Row) {
    SessionKey(row.id) in db && db[SessionKey(row.id)] == Text(Parsed(row), Some(row.expiresAt))
  }

  /** A stored record is sound, was issued, and its key lasts exactly as long as the session. */
  predicate RecordSound(db: Db, now: int, issued: set<Id>, id: Id) {
    SessionKey(id) in db ==>
      && id in issued
      && db[SessionKey(id)].Text? && db[SessionKey(id)].content.Parsed?
      && var row := db[SessionKey(id)].content.row;
         row.id == id && Holds(db, row) && ProperRow(row, id, now)
  }

  /** An index member was issued, and its record, if there still is one, belongs to this user. */
  predicate MemberSound(db: Db, issued: set<Id>, user: User, m: Member) {
    && m.id in issued
    && (SessionKey(m.id) in db ==>
          db[SessionKey(m.id)].Text? && db[SessionKey(m.id)].content.Parsed?
          && db[SessionKey(m.id)].content.row.user == user && db[SessionKey(m.id)].content.row.createdAt == m.score)
  }

  ghost predicate IndexSound(db: Db, issued: set<Id>, user: User) {
    UserKey(user) in db ==>
      && db[UserKey(user)].Sorted? && db[UserKey(user)].deadline.Some? && db[UserKey(user)].items != []
      && ProperSet(db[UserKey(user)].items)
      && forall i :: 0 <= i < |db[UserKey(user)].items| ==> MemberSound(db, issued, user, db[UserKey(user)].items[i])
  }

  /** A live session is in its own user's index under its creation time, and the index outlives it. */
  predicate Covered(db: Db, now: int, id: Id) {
    match Load(db, now, id)
    case Live(row) =>
      && UserKey(row.user) in db && db[UserKey(row.user)].Sorted?
      && MemberOf(row) in db[UserKey(row.user)].items
      && db[UserKey(row.user)].deadline.Some? && db[UserKey(row.user)].deadline.value >= row.expiresAt
    case _ => true
  }

  ghost predicate Inv(db: Db, now: int, issued: set<Id>) {
    && now > 0
    && (forall id :: RecordSound(db, now, issued, id))
    && (forall user :: IndexSound(db, issued, user))
    && (forall id :: Covered(db, now, id))
  }

  ghost predicate Agrees(db: Db, now: int, ledger: Ledger) {
    forall id :: View(db, now, id) == Recall(ledger, now, id)
  }

  // ----- sequences of rows -----

  function IdsOf(rows: seq<Row>): set<Id> {
    set i | 0 <= i < |rows| :: rows[i].id
  }

  lemma {:induction false} DistinctCount(rows: seq<Row>)
    requires DistinctIds(rows)
    ensures |IdsOf(rows)| == |rows|
  {
    if rows != [] {
      var n := |rows| - 1;
      DistinctCount(rows[..n]);
      assert IdsOf(rows) == IdsOf(rows[..n]) + {rows[n].id};
      assert rows[n].id !in IdsOf(rows[..n]);
    }
  }

  lemma {:induction false} MaxExpiryBounds(rows: seq<Row>)
    ensures forall i :: 0 <= i < |rows| ==> rows[i].expiresAt <= MaxExpiry(rows)
  {
    if rows != [] { MaxExpiryBounds(rows[..|rows| - 1]); }
  }

  lemma {:induction false} InsertContents(items: seq<Member>, m: Member)
    ensures forall x :: x in Insert(items, m) <==> x in items || x == m
  {
    if items != [] && !Before(m, items[0]) {
      InsertContents(items[1..], m);
    }
  }

  lemma {:induction false} InsertProper(items: seq<Member>, m: Member)
    requires ProperSet(items)
    requires forall i :: 0 <= i < |items| ==> items[i].id != m.id
    ensures ProperSet(Insert(items, m))
  {
    if items == [] {
    } else if Before(m, items[0]) {
      forall j | 0 <= j < |items| ensures Before(m, items[j]) {
        if j > 0 {
          ProperPair(items, 0, j);
          BeforeTransitive(m, items[0], items[j]);
        }
      }
      PrependProper(m, items);
    } else {
      BeforeTotal(m, items[0]);
      var rest := Insert(items[1..], m);
      InsertProper(items[1..], m);
      InsertContents(items[1..], m);
      forall j | 0 <= j < |rest| ensures Before(items[0], rest[j]) && items[0].id != rest[j].id {
        assert rest[j] in rest;
        if rest[j] != m {
          var i :| 0 <= i < |items[1..]| && items[1..][i] == rest[j];
        }
      }
      PrependProper(items[0], rest);
    }
  }

  // ----- what the prechecks find in a sound database -----

  lemma SoundMemberAgrees(db: Db, now: int, issued: set<Id>, user: User, i: nat)
    requires Inv(db, now, issued)
    requires i < |IndexItems(db, user)|
    ensures MemberAgrees(db, now, user, IndexItems(db, user)[i])
  {
    var m := IndexItems(db, user)[i];
    assert IndexSound(db, issued, user);
    assert MemberSound(db, issued, user, m);
    assert RecordSound(db, now, issued, m.id);
  }

  lemma SoundPrechecks(db: Db, now: int, issued: set<Id>, user: User)
    requires Inv(db, now, issued)
    ensures Prechecked(db, now, user, None)
    ensures ProperSet(MembersOf(ActiveRows(db, now, IndexItems(db, user))))
    ensures forall k :: 0 <= k < |IndexItems(db, user)| ==> MemberAgrees(db, now, user, IndexItems(db, user)[k])
  {
    assert IndexSound(db, issued, user);
    forall i | 0 <= i < |IndexItems(db, user)| ensures MemberAgrees(db, now, user, IndexItems(db, user)[i]) {
      SoundMemberAgrees(db, now, issued, user, i);
    }
    ActiveRowsProper(db, now, user, IndexItems(db, user));
  }

  /** No record is ever found broken. */
  lemma NeverBroken(db: Db, now: int, issued: set<Id>, id: Id)
    requires Inv(db, now, issued)
    ensures !Load(db, now, id).Broken?
    ensures Load(db, now, id).Live? ==> Load(db, now, id).row.id == id && Holds(db, Load(db, now, id).row)
    ensures Load(db, now, id).Live? ==> ProperRow(Load(db, now, id).row, id, now) && id in issued
  {
    assert RecordSound(db, now, issued, id);
  }

  /** The active rows of an index are exactly the user's live records. */
  lemma ActiveRowsAreLive(db: Db, now: int, issued: set<Id>, user: User, row: Row)
    requires Inv(db, now, issued)
    ensures row in ActiveRows(db, now, IndexItems(db, user)) <==> Load(db, now, row.id) == Live(row) && row.user == user
  {
    var items := IndexItems(db, user);
    var rows := ActiveRows(db, now, items);
    SoundPrechecks(db, now, issued, user);
    if row in rows {
      var k :| 0 <= k < |rows| && rows[k] == row;
      var i := ActiveRowSource(db, now, user, items, k);
    }
    if Load(db, now, row.id) == Live(row) && row.user == user {
      assert Covered(db, now, row.id);
      var i :| 0 <= i < |items| && items[i] == MemberOf(row);
      ActiveRowsComplete(db, now, items, i);
    }
  }

  lemma TargetPrechecked(db: Db, now: int, issued: set<Id>, id: Id)
    requires Inv(db, now, issued) && Load(db, now, id).Live?
    ensures Prechecked(db, now, Load(db, now, id).row.user, Some(id))
  {
    var row := Load(db, now, id).row;
    NeverBroken(db, now, issued, id);
    SoundPrechecks(db, now, issued, row.user);
    assert Covered(db, now, id);
    var i :| 0 <= i < |IndexItems(db, row.user)| && IndexItems(db, row.user)[i] == MemberOf(row);
  }

  // ----- rebuilding one user's index -----

  /** Only this user's index and the written record differ; other records are kept or dropped. */
  ghost predicate OnlyTouches(db: Db, db': Db, user: User, written: Option<Row>) {
    && (forall v :: v != user ==> (UserKey(v) in db' <==> UserKey(v) in db))
    && (forall v :: v != user && UserKey(v) in db' ==> db'[UserKey(v)] == db[UserKey(v)])
    && (forall id :: SessionKey(id) in db' ==>
          || (SessionKey(id) in db && db'[SessionKey(id)] == db[SessionKey(id)])
          || (written.Some? && written.value.id == id && Holds(db', written.value)))
  }

  /** The user's index lists exactly `rows`, which are exactly the user's live records. */
  ghost predicate IndexLists(db: Db, now: int, user: User, items: seq<Member>, rows: seq<Row>) {
    && (rows == [] ==> UserKey(user) !in db)
    && (rows != [] ==> UserKey(user) in db && db[UserKey(user)] == Sorted(items, Some(MaxExpiry(rows))))
    && ProperSet(items)
    && (forall m :: m in items <==> m in MembersOf(rows))
    && (forall row :: row in rows <==> Load(db, now, row.id) == Live(row) && row.user == user)
  }

  /** A record written for this user may not be a member of anybody else's index. */
  ghost predicate NobodyElses(db: Db, user: User, id: Id) {
    forall v :: v != user && UserKey(v) in db && db[UserKey(v)].Sorted? ==>
      forall i :: 0 <= i < |db[UserKey(v)].items| ==> db[UserKey(v)].items[i].id != id
  }

  lemma RebuiltIndex(db: Db, now: int, issued: set<Id>, user: User, items: seq<Member>, rows: seq<Row>)
    requires IndexLists(db, now, user, items, rows) && rows != []
    requires forall id :: RecordSound(db, now, issued, id)
    ensures IndexSound(db, issued, user)
  {
    assert MembersOf(rows)[0] in items;
    forall i | 0 <= i < |items| ensures MemberSound(db, issued, user, items[i]) {
      assert items[i] in MembersOf(rows);
      var k :| 0 <= k < |rows| && MembersOf(rows)[k] == items[i];
      assert rows[k] in rows;
      assert RecordSound(db, now, issued, rows[k].id);
    }
  }

  lemma Rebuilt(db: Db, db': Db, now: int, issued: set<Id>, issued': set<Id>, user: User,
                items: seq<Member>, rows: seq<Row>, written: Option<Row>)
    requires Inv(db, now, issued) && issued <= issued'
    requires OnlyTouches(db, db', user, written)
    requires IndexLists(db', now, user, items, rows)
    requires written.Some? ==> ProperRow(written.value, written.value.id, now) && written.value.user == user
    requires written.Some? ==> written.value.id in issued' && NobodyElses(db, user, written.value.id)
    ensures Inv(db', now, issued')
  {
    forall id ensures RecordSound(db', now, issued', id) {
      assert RecordSound(db, now, issued, id);
    }
    forall v ensures IndexSound(db', issued', v) {
      assert IndexSound(db, issued, v);
      if v == user {
        if rows != [] { RebuiltIndex(db', now, issued', user, items, rows); }
      } else if UserKey(v) in db' {
        var entry := db[UserKey(v)];
        forall i | 0 <= i < |entry.items| ensures MemberSound(db', issued', v, entry.items[i]) {
          assert MemberSound(db, issued, v, entry.items[i]);
          assert written.Some? ==> entry.items[i].id != written.value.id;
        }
      }
    }
    forall id ensures Covered(db', now, id) {
      match Load(db', now, id) {
        case Live(row) =>
          assert RecordSound(db', now, issued', id);
          if row.user == user {
            MaxExpiryBounds(rows);
            var k :| 0 <= k < |rows| && rows[k] == row;
            assert MembersOf(rows)[k] == MemberOf(row);
          } else {
            assert db'[SessionKey(id)] == db[SessionKey(id)];
            assert Covered(db, now, id);
          }
        case _ =>
      }
    }
  }

  /** Dropping the records of dead members changes no live session. */
  lemma CleanedLoads(db: Db, now: int, items: seq<Member>, id: Id)
    ensures var cleaned := db - SessionKeys(StaleIds(db, now, items));
            Load(db, now, id).Live? || Load(cleaned, now, id).Live? ==> Load(cleaned, now, id) == Load(db, now, id)
  {
    StaleIdsExact(db, now, items);
  }

  // ----- one lemma per kind of write -----

  lemma SettleLoads(stored: Db, now: int, user: User, items: seq<Member>, rows: seq<Row>)
    ensures forall id :: Load(Settle(stored, user, items, rows), now, id) == Load(stored, now, id)
  {
  }

  /** Records are a selection of the old ones, plus the written one; indexes are untouched. */
  ghost predicate Selects(db: Db, stored: Db, written: Option<Row>) {
    && (forall v :: UserKey(v) in stored <==> UserKey(v) in db)
    && (forall v :: UserKey(v) in stored ==> stored[UserKey(v)] == db[UserKey(v)])
    && (forall id :: SessionKey(id) in stored ==>
          || (SessionKey(id) in db && stored[SessionKey(id)] == db[SessionKey(id)])
          || (written.Some? && written.value.id == id && Holds(stored, written.value)))
  }

  /** Settling a selection of the records keeps the invariant. */
  lemma Settled(db: Db, stored: Db, now: int, issued: set<Id>, issued': set<Id>, user: User,
                items: seq<Member>, rows: seq<Row>, written: Option<Row>)
    requires Inv(db, now, issued) && issued <= issued'
    requires Selects(db, stored, written)
    requires ProperSet(items)
    requires forall m :: m in items <==> m in MembersOf(rows)
    requires forall row :: row in rows <==> Load(stored, now, row.id) == Live(row) && row.user == user
    requires written.Some? ==> ProperRow(written.value, written.value.id, now) && written.value.user == user
    requires written.Some? ==> written.value.id in issued' && NobodyElses(db, user, written.value.id)
    ensures Inv(Settle(stored, user, items, rows), now, issued')
    ensures forall id :: Load(Settle(stored, user, items, rows), now, id) == Load(stored, now, id)
  {
    var db' := Settle(stored, user, items, rows);
    SettleLoads(stored, now, user, items, rows);
    Rebuilt(db, db', now, issued, issued', user, items, rows, written);
  }

  function Cleaned(db: Db, now: int, user: User): Db {
    db - SessionKeys(StaleIds(db, now, IndexItems(db, user)))
  }

  lemma CleanedSelects(db: Db, now: int, user: User)
    ensures Selects(db, Cleaned(db, now, user), None)
  {
  }

  function RowsOf(db: Db, now: int, user: User): seq<Row> {
    ActiveRows(db, now, IndexItems(db, user))
  }

  ghost predicate SameViews(db: Db, db': Db, now: int) {
    forall id :: View(db', now, id) == View(db, now, id)
  }

  /** Looking up or listing rewrites the index without changing any session. */
  lemma ReadKeepsSessions(db: Db, now: int, issued: set<Id>, user: User)
    requires Inv(db, now, issued)
    ensures var rows := RowsOf(db, now, user);
            var db' := Settle(Cleaned(db, now, user), user, MembersOf(rows), rows);
            Inv(db', now, issued) && SameViews(db, db', now)
  {
    var rows, stored := RowsOf(db, now, user), Cleaned(db, now, user);
    SoundPrechecks(db, now, issued, user);
    CleanedSelects(db, now, user);
    forall id ensures Load(stored, now, id).Live? || Load(db, now, id).Live? ==> Load(stored, now, id) == Load(db, now, id) {
      CleanedLoads(db, now, IndexItems(db, user), id);
    }
    forall row ensures row in rows <==> Load(stored, now, row.id) == Live(row) && row.user == user {
      ActiveRowsAreLive(db, now, issued, user, row);
    }
    Settled(db, stored, now, issued, issued, user, MembersOf(rows), rows, None);
  }

  /** The extended sequence has the renewed row in the place of the old one. */
  lemma ExtendedRows(db: Db, now: int, issued: set<Id>, user: User, id: Id, expiresAt: int, r: Row)
    requires Inv(db, now, issued) && Load(db, now, id).Live? && Load(db, now, id).row.user == user
    ensures r in ExtendRow(RowsOf(db, now, user), id, expiresAt) <==>
              if r.id == id then r == Load(db, now, id).row.(expiresAt := expiresAt) else r in RowsOf(db, now, user)
  {
    var rows := RowsOf(db, now, user);
    var rows' := ExtendRow(rows, id, expiresAt);
    var old' := Load(db, now, id).row;
    NeverBroken(db, now, issued, id);
    ActiveRowsAreLive(db, now, issued, user, old');
    if r in rows' {
      var k :| 0 <= k < |rows'| && rows'[k] == r;
      ActiveRowsAreLive(db, now, issued, user, rows[k]);
    }
    if r.id == id && r == old'.(expiresAt := expiresAt) {
      var k :| 0 <= k < |rows| && rows[k] == old';
      assert rows'[k] == r;
    }
    if r.id != id && r in rows {
      var k :| 0 <= k < |rows| && rows[k] == r;
      assert rows'[k] == r;
    }
  }

  lemma RenewedRows(db: Db, stored: Db, now: int, issued: set<Id>, id: Id, row: Row)
    requires Inv(db, now, issued) && Load(db, now, id).Live?
    requires row == Load(db, now, id).row.(expiresAt := row.expiresAt)
    requires Load(stored, now, id) == Live(row)
    requires forall other :: other != id && (Load(stored, now, other).Live? || Load(db, now, other).Live?) ==>
               Load(stored, now, other) == Load(db, now, other)
    ensures forall r :: r in ExtendRow(RowsOf(db, now, row.user), id, row.expiresAt)
                        <==> Load(stored, now, r.id) == Live(r) && r.user == row.user
  {
    NeverBroken(db, now, issued, id);
    forall r ensures r in ExtendRow(RowsOf(db, now, row.user), id, row.expiresAt)
                     <==> Load(stored, now, r.id) == Live(r) && r.user == row.user
    {
      ExtendedRows(db, now, issued, row.user, id, row.expiresAt, r);
      ActiveRowsAreLive(db, now, issued, row.user, r);
    }
  }

  lemma RenewedSelects(db: Db, now: int, user: User, row: Row)
    ensures Selects(db, Cleaned(db, now, user)[SessionKey(row.id) := Text(Parsed(row), Some(row.expiresAt))], Some(row))
  {
  }

  lemma RenewedLoads(db: Db, now: int, user: User, id: Id, row: Row)
    requires row.id == id && ProperRow(row, id, now) && row.expiresAt > now
    ensures var stored := Cleaned(db, now, user)[SessionKey(id) := Text(Parsed(row), Some(row.expiresAt))];
            && Load(stored, now, id) == Live(row)
            && (forall other :: other != id && (Load(stored, now, other).Live? || Load(db, now, other).Live?) ==>
                  Load(stored, now, other) == Load(db, now, other))
  {
    var stored := Cleaned(db, now, user)[SessionKey(id) := Text(Parsed(row), Some(row.expiresAt))];
    forall other | other != id && (Load(stored, now, other).Live? || Load(db, now, other).Live?)
      ensures Load(stored, now, other) == Load(db, now, other)
    {
      CleanedLoads(db, now, IndexItems(db, user), other);
    }
  }

  lemma RenewedIsNobodyElses(db: Db, now: int, issued: set<Id>, id: Id)
    requires Inv(db, now, issued) && Load(db, now, id).Live?
    ensures NobodyElses(db, Load(db, now, id).row.user, id)
  {
    forall v | UserKey(v) in db && v != Load(db, now, id).row.user
      ensures db[UserKey(v)].Sorted? ==> forall i :: 0 <= i < |db[UserKey(v)].items| ==> db[UserKey(v)].items[i].id != id
    {
      assert IndexSound(db, issued, v);
      forall i | 0 <= i < |db[UserKey(v)].items| ensures db[UserKey(v)].items[i].id != id {
        assert MemberSound(db, issued, v, db[UserKey(v)].items[i]);
      }
    }
  }

  lemma RenewExtends(db: Db, now: int, issued: set<Id>, id: Id, ttl: int)
    requires Inv(db, now, issued) && Load(db, now, id).Live? && ttl >= 1 && now + ttl <= MAX_SAFE_INTEGER
    ensures var user, row := Load(db, now, id).row.user, Load(db, now, id).row.(expiresAt := now + ttl);
            var rows := RowsOf(db, now, user);
            var stored := Cleaned(db, now, user)[SessionKey(id) := Text(Parsed(row), Some(now + ttl))];
            var db' := Settle(stored, user, MembersOf(rows), ExtendRow(rows, id, now + ttl));
            && Inv(db', now, issued)
            && View(db', now, id) == Some(SessionOf(row))
            && (forall other :: other != id ==> View(db', now, other) == View(db, now, other))
            && Load(Cleaned(db, now, user), now, id) == Load(db, now, id)
  {
    hide ActiveRows, StaleIds, ProperSet, IndexItems, NobodyElses, Selects, Inv, Load, ExtendRow, Settle;
    var user, row := Load(db, now, id).row.user, Load(db, now, id).row.(expiresAt := now + ttl);
    var rows := RowsOf(db, now, user);
    var rows' := ExtendRow(rows, id, now + ttl);
    var stored := Cleaned(db, now, user)[SessionKey(id) := Text(Parsed(row), Some(now + ttl))];
    SoundPrechecks(db, now, issued, user);
    NeverBroken(db, now, issued, id);
    assert MembersOf(rows') == MembersOf(rows);
    RenewedSelects(db, now, user, row);
    CleanedLoads(db, now, IndexItems(db, user), id);
    RenewedLoads(db, now, user, id, row);
    RenewedRows(db, stored, now, issued, id, row);
    RenewedIsNobodyElses(db, now, issued, id);
    Settled(db, stored, now, issued, issued, user, MembersOf(rows), rows', Some(row));
  }

  lemma HeadBeforeRow(rows: seq<Row>, r: Row)
    requires rows != [] && ProperSet(MembersOf(rows)) && r in rows[1..]
    ensures Before(MemberOf(rows[0]), MemberOf(r)) && rows[0].id != r.id
  {
    var i :| 0 <= i < |rows[1..]| && rows[1..][i] == r;
    ProperPair(MembersOf(rows), 0, i + 1);
  }

  lemma HeadedProper(rows: seq<Row>, rest: seq<Row>)
    requires rows != [] && ProperSet(MembersOf(rows)) && ProperSet(MembersOf(rest))
    requires forall r :: r in rest ==> r in rows[1..]
    ensures ProperSet(MembersOf([rows[0]] + rest))
  {
    forall j | 0 <= j < |rest|
      ensures Before(MemberOf(rows[0]), MembersOf(rest)[j]) && MemberOf(rows[0]).id != MembersOf(rest)[j].id
    {
      HeadBeforeRow(rows, rest[j]);
    }
    PrependProper(MemberOf(rows[0]), MembersOf(rest));
    assert MembersOf([rows[0]] + rest) == [MemberOf(rows[0])] + MembersOf(rest);
  }

  lemma {:induction false} DropRowProper(rows: seq<Row>, id: Id)
    requires ProperSet(MembersOf(rows))
    ensures ProperSet(MembersOf(DropRow(rows, id)))
  {
    if rows != [] {
      var rest := DropRow(rows[1..], id);
      assert MembersOf(rows)[1..] == MembersOf(rows[1..]);
      DropRowProper(rows[1..], id);
      if rows[0].id == id {
        assert DropRow(rows, id) == rest;
      } else {
        DroppedRowsAreRows(rows[1..], id);
        HeadedProper(rows, rest);
        assert DropRow(rows, id) == [rows[0]] + rest;
      }
    }
  }

  lemma RevokeRemoves(db: Db, now: int, issued: set<Id>, id: Id)
    requires Inv(db, now, issued) && Load(db, now, id).Live?
    ensures var user := Load(db, now, id).row.user;
            var rows := DropRow(RowsOf(db, now, user), id);
            var db' := Settle(Cleaned(db, now, user) - {SessionKey(id)}, user, MembersOf(rows), rows);
            && Inv(db', now, issued)
            && View(db', now, id) == None
            && (forall other :: other != id ==> View(db', now, other) == View(db, now, other))
  {
    hide ActiveRows, StaleIds, ProperSet, RecordSound, IndexSound, Covered, IndexItems, MaxExpiry;
    var user := Load(db, now, id).row.user;
    var rows := DropRow(RowsOf(db, now, user), id);
    var db' := Settle(Cleaned(db, now, user) - {SessionKey(id)}, user, MembersOf(rows), rows);
    SoundPrechecks(db, now, issued, user);
    forall other | other != id
      ensures Load(db', now, other).Live? || Load(db, now, other).Live? ==> Load(db', now, other) == Load(db, now, other)
    {
      CleanedLoads(db, now, IndexItems(db, user), other);
    }
    DroppedRowsAreRows(RowsOf(db, now, user), id);
    forall r ensures r in rows <==> Load(db', now, r.id) == Live(r) && r.user == user {
      ActiveRowsAreLive(db, now, issued, user, r);
    }
    DropRowProper(RowsOf(db, now, user), id);
    Rebuilt(db, db', now, issued, issued, user, MembersOf(rows), rows, None);
  }

  lemma RevokeUserRemoves(db: Db, now: int, issued: set<Id>, user: User)
    requires Inv(db, now, issued)
    ensures var db' := Cleaned(db, now, user) - RowKeys(RowsOf(db, now, user)) - {UserKey(user)};
            && Inv(db', now, issued)
            && (forall id :: View(db', now, id) ==
                  if View(db, now, id).Some? && View(db, now, id).value.user == user then None else View(db, now, id))
  {
    var rows := RowsOf(db, now, user);
    var db' := Cleaned(db, now, user) - RowKeys(rows) - {UserKey(user)};
    forall id
      ensures Load(db', now, id).Live? <==> Load(db, now, id).Live? && Load(db, now, id).row.user != user
      ensures Load(db', now, id).Live? ==> Load(db', now, id) == Load(db, now, id)
    {
      CleanedLoads(db, now, IndexItems(db, user), id);
      NeverBroken(db, now, issued, id);
      if Load(db, now, id).Live? {
        ActiveRowsAreLive(db, now, issued, user, Load(db, now, id).row);
      }
      if SessionKey(id) in RowKeys(rows) {
        var k :| 0 <= k < |rows| && rows[k].id == id;
        ActiveRowsAreLive(db, now, issued, user, rows[k]);
      }
    }
    Rebuilt(db, db', now, issued, issued, user, [], [], None);
  }

  /** How many of the oldest rows a create with this limit evicts. */
  function Excess(rows: seq<Row>, limit: int): nat
    requires limit >= 1
  {
    |rows| - |Latest(rows, limit - 1)|
  }

  lemma {:induction false} ProperSuffix(items: seq<Member>, n: nat)
    requires ProperSet(items) && n <= |items|
    ensures ProperSet(items[n..])
  {
    if n > 0 {
      ProperSuffix(items[1..], n - 1);
      assert items[1..][n - 1..] == items[n..];
    }
  }

  lemma SplitRows(rows: seq<Row>, n: nat, r: Row)
    requires DistinctIds(rows) && n <= |rows|
    ensures r in rows[n..] <==> r in rows && r.id !in IdsOf(rows[..n])
  {
    if r in rows {
      var k :| 0 <= k < |rows| && rows[k] == r;
      if k < n {
        assert rows[..n][k].id == r.id;
        forall j | n <= j < |rows| ensures rows[j] != r { assert rows[k].id != rows[j].id; }
        assert forall j :: 0 <= j < |rows[n..]| ==> rows[n..][j] == rows[n + j];
      } else {
        assert rows[n..][k - n] == r;
        assert forall j :: 0 <= j < n ==> rows[..n][j] == rows[j] && rows[j].id != rows[k].id;
      }
    }
  }

  function StoredByCreate(db: Db, now: int, user: User, gone: set<Key>, row: Row): Db {
    (Cleaned(db, now, user) - gone)[SessionKey(row.id) := Text(Parsed(row), Some(row.expiresAt))]
  }

  lemma CreatedLoads(db: Db, now: int, issued: set<Id>, user: User, evicted: seq<Row>, row: Row)
    requires Inv(db, now, issued) && row.id !in issued
    requires ProperRow(row, row.id, now) && row.expiresAt > now
    ensures var stored := StoredByCreate(db, now, user, RowKeys(evicted), row);
            && Load(stored, now, row.id) == Live(row)
            && (forall other :: other != row.id && other in IdsOf(evicted) ==> !Load(stored, now, other).Live?)
            && (forall other :: other != row.id && other !in IdsOf(evicted) ==>
                  (Load(stored, now, other).Live? || Load(db, now, other).Live? ==>
                     Load(stored, now, other) == Load(db, now, other)))
            && Selects(db, stored, Some(row))
  {
    var stored := StoredByCreate(db, now, user, RowKeys(evicted), row);
    assert forall other :: SessionKey(other) in RowKeys(evicted) <==> other in IdsOf(evicted);
    forall other | other != row.id && other !in IdsOf(evicted)
                   && (Load(stored, now, other).Live? || Load(db, now, other).Live?)
      ensures Load(stored, now, other) == Load(db, now, other)
    {
      CleanedLoads(db, now, IndexItems(db, user), other);
    }
  }

  lemma FreshIsNobodyElses(db: Db, now: int, issued: set<Id>, user: User, id: Id)
    requires Inv(db, now, issued) && id !in issued
    ensures NobodyElses(db, user, id) && SessionKey(id) !in db
  {
    assert RecordSound(db, now, issued, id);
    forall v | UserKey(v) in db
      ensures db[UserKey(v)].Sorted? ==> forall i :: 0 <= i < |db[UserKey(v)].items| ==> db[UserKey(v)].items[i].id != id
    {
      assert IndexSound(db, issued, v);
      forall i | 0 <= i < |db[UserKey(v)].items| ensures db[UserKey(v)].items[i].id != id {
        assert MemberSound(db, issued, v, db[UserKey(v)].items[i]);
      }
    }
  }

  lemma CreatedRows(db: Db, now: int, issued: set<Id>, user: User, n: nat, row: Row)
    requires Inv(db, now, issued) && row.id !in issued && row.user == user
    requires ProperRow(row, row.id, now) && row.expiresAt > now
    requires n <= |RowsOf(db, now, user)|
    ensures var rows := RowsOf(db, now, user);
            var stored := StoredByCreate(db, now, user, RowKeys(rows[..n]), row);
            && (forall r :: r in rows[n..] + [row] <==> Load(stored, now, r.id) == Live(r) && r.user == user)
            && (forall r :: r in rows[n..] ==> r.id != row.id)
  {
    var rows := RowsOf(db, now, user);
    var stored := StoredByCreate(db, now, user, RowKeys(rows[..n]), row);
    CreatedLoads(db, now, issued, user, rows[..n], row);
    SoundPrechecks(db, now, issued, user);
    ProperRowsDistinct(rows);
    forall r
      ensures r in rows[n..] + [row] <==> Load(stored, now, r.id) == Live(r) && r.user == user
      ensures r in rows[n..] ==> r.id != row.id
    {
      SplitRows(rows, n, r);
      ActiveRowsAreLive(db, now, issued, user, r);
      NeverBroken(db, now, issued, r.id);
    }
  }

  lemma CreatedItems(rows: seq<Row>, n: nat, row: Row)
    requires ProperSet(MembersOf(rows)) && n <= |rows|
    requires forall r :: r in rows[n..] ==> r.id != row.id
    ensures ProperSet(Insert(MembersOf(rows[n..]), MemberOf(row)))
    ensures forall m :: m in Insert(MembersOf(rows[n..]), MemberOf(row)) <==> m in MembersOf(rows[n..] + [row])
  {
    var old' := MembersOf(rows[n..]);
    ProperSuffix(MembersOf(rows), n);
    assert MembersOf(rows)[n..] == old';
    forall i | 0 <= i < |old'| ensures old'[i].id != row.id {
      assert rows[n..][i] in rows[n..];
    }
    InsertProper(old', MemberOf(row));
    InsertContents(old', MemberOf(row));
    assert MembersOf(rows[n..] + [row]) == old' + [MemberOf(row)];
  }

  lemma CreateAdds(db: Db, now: int, issued: set<Id>, id: Id, user: User, identity: Identity, ttl: int, limit: int)
    requires Inv(db, now, issued) && id !in issued && limit >= 1 && ttl >= 1
    requires ProperRow(NewRow(now, id, user, identity, ttl), id, now)
    ensures var row, rows := NewRow(now, id, user, identity, ttl), RowsOf(db, now, user);
            var n := Excess(rows, limit);
            var stored := StoredByCreate(db, now, user, RowKeys(rows[..n]), row);
            var db' := Settle(stored, user, Insert(MembersOf(rows[n..]), MemberOf(row)), rows[n..] + [row]);
            && Inv(db', now, issued + {id})
            && View(db', now, id) == Some(SessionOf(row))
            && (forall other :: other != id ==>
                  View(db', now, other) == if other in IdsOf(rows[..n]) then None else View(db, now, other))
  {
    var row, rows := NewRow(now, id, user, identity, ttl), RowsOf(db, now, user);
    var n := Excess(rows, limit);
    var stored := StoredByCreate(db, now, user, RowKeys(rows[..n]), row);
    var items := Insert(MembersOf(rows[n..]), MemberOf(row));
    SoundPrechecks(db, now, issued, user);
    CreatedRows(db, now, issued, user, n, row);
    CreatedItems(rows, n, row);
    CreatedLoads(db, now, issued, user, rows[..n], row);
    FreshIsNobodyElses(db, now, issued, user, id);
    Settled(db, stored, now, issued, issued + {id}, user, items, rows[n..] + [row], Some(row));
  }

  // ----- the ledger and the rows -----

  lemma LiveRowsInLedger(db: Db, now: int, issued: set<Id>, ledger: Ledger, user: User)
    requires Inv(db, now, issued) && Agrees(db, now, ledger)
    ensures LiveOf(ledger, now, user) == IdsOf(RowsOf(db, now, user))
    ensures forall row :: row in RowsOf(db, now, user) ==> row.id in ledger && RowOf(row.id, ledger[row.id]) == row
  {
    var rows := RowsOf(db, now, user);
    forall row | row in rows ensures row.id in LiveOf(ledger, now, user) && RowOf(row.id, ledger[row.id]) == row {
      ActiveRowsAreLive(db, now, issued, user, row);
      NeverBroken(db, now, issued, row.id);
      assert View(db, now, row.id) == Recall(ledger, now, row.id);
    }
    forall id | id in LiveOf(ledger, now, user) ensures id in IdsOf(rows) {
      assert View(db, now, id) == Recall(ledger, now, id);
      var row := Load(db, now, id).row;
      NeverBroken(db, now, issued, id);
      ActiveRowsAreLive(db, now, issued, user, row);
      var k :| 0 <= k < |rows| && rows[k] == row;
    }
    forall id | id in IdsOf(rows) ensures id in LiveOf(ledger, now, user) {
      var k :| 0 <= k < |rows| && rows[k].id == id;
      assert rows[k] in rows;
    }
  }

  lemma OrderOfRows(rows: seq<Row>, i: nat, j: nat)
    requires ProperSet(MembersOf(rows)) && i < |rows| && j < |rows|
    ensures Before(MemberOf(rows[i]), MemberOf(rows[j])) <==> i < j
  {
    var items := MembersOf(rows);
    if i < j {
      ProperPair(items, i, j);
    } else if j < i {
      ProperPair(items, j, i);
      BeforeTotal(items[j], items[i]);
    } else {
      TextBeforeIrreflexive(rows[i].id);
    }
  }

  /** The rows are the user's live sessions, oldest first. */
  ghost predicate RowsMatch(ledger: Ledger, now: int, user: User, rows: seq<Row>) {
    && ProperSet(MembersOf(rows)) && DistinctIds(rows)
    && LiveOf(ledger, now, user) == IdsOf(rows)
    && (forall i :: 0 <= i < |rows| ==> rows[i].id in ledger && Stamp(ledger, rows[i].id) == MemberOf(rows[i]))
  }

  lemma RowsOfMatch(db: Db, now: int, issued: set<Id>, ledger: Ledger, user: User)
    requires Inv(db, now, issued) && Agrees(db, now, ledger)
    ensures RowsMatch(ledger, now, user, RowsOf(db, now, user))
  {
    hide Inv, Agrees, ActiveRows, StaleIds, ProperSet, IndexItems, LiveOf, IdsOf;
    var rows := RowsOf(db, now, user);
    LiveRowsInLedger(db, now, issued, ledger, user);
    SoundPrechecks(db, now, issued, user);
    ProperRowsDistinct(rows);
    forall i | 0 <= i < |rows| ensures rows[i].id in ledger && Stamp(ledger, rows[i].id) == MemberOf(rows[i]) {
      assert rows[i] in rows;
    }
  }

  lemma NewerIsSuffix(ledger: Ledger, now: int, user: User, rows: seq<Row>, i: nat)
    requires RowsMatch(ledger, now, user, rows) && i < |rows|
    ensures |Newer(ledger, now, user, rows[i].id)| == |rows| - 1 - i
  {
    hide ProperSet, Before, LiveOf;
    var newer := Newer(ledger, now, user, rows[i].id);
    forall id ensures id in newer <==> id in IdsOf(rows[i + 1..]) {
      if id in LiveOf(ledger, now, user) {
        var k :| 0 <= k < |rows| && rows[k].id == id;
        OrderOfRows(rows, i, k);
        if i < k { assert rows[i + 1..][k - i - 1].id == id; }
      }
      if id in IdsOf(rows[i + 1..]) {
        var k :| 0 <= k < |rows[i + 1..]| && rows[i + 1..][k].id == id;
        assert rows[i + 1 + k].id == id;
        OrderOfRows(rows, i, i + 1 + k);
      }
    }
    assert newer == IdsOf(rows[i + 1..]);
    assert DistinctIds(rows[i + 1..]);
    DistinctCount(rows[i + 1..]);
  }

  lemma OldestAreDisplaced(ledger: Ledger, now: int, user: User, rows: seq<Row>, limit: int)
    requires RowsMatch(ledger, now, user, rows) && limit >= 1
    ensures Displaced(ledger, now, user, limit) == IdsOf(rows[..Excess(rows, limit)])
  {
    hide ProperSet, Newer, LiveOf;
    var n := Excess(rows, limit);
    forall id ensures id in Displaced(ledger, now, user, limit) <==> id in IdsOf(rows[..n]) {
      if id in IdsOf(rows) {
        var k :| 0 <= k < |rows| && rows[k].id == id;
        NewerIsSuffix(ledger, now, user, rows, k);
        if k < n { assert rows[..n][k].id == id; }
        if id in IdsOf(rows[..n]) {
          var j :| 0 <= j < n && rows[..n][j].id == id;
          assert j == k;
        }
      }
    }
  }

  /** The script evicts exactly the sessions the ledger displaces. */
  lemma EvictedAreDisplaced(db: Db, now: int, issued: set<Id>, ledger: Ledger, user: User, limit: int)
    requires Inv(db, now, issued) && Agrees(db, now, ledger) && limit >= 1
    ensures Displaced(ledger, now, user, limit) == IdsOf(RowsOf(db, now, user)[..Excess(RowsOf(db, now, user), limit)])
  {
    RowsOfMatch(db, now, issued, ledger, user);
    OldestAreDisplaced(ledger, now, user, RowsOf(db, now, user), limit);
  }

  // ----- one call -----

  /** What the Go side guarantees of a call, with identifiers never issued twice and a clock that leaves
      room for the lifetime below the largest safe integer. */
  predicate Admissible(now: int, issued: set<Id>, call: Call) {
    match call
    case Create(id, user, identity, ttl, limit) =>
      && id !in issued && ScriptAcceptsId(id) && user != "" && identity.user == user && Encodable(identity)
      && ttl >= 1 && now + ttl <= MAX_SAFE_INTEGER && limit >= 1
    case Renew(_, ttl) => ttl >= 1 && now + ttl <= MAX_SAFE_INTEGER
    case _ => true
  }

  /** The one condition the Go side does not check: the identity is nested no deeper than the script can decode. */
  predicate Readable(call: Call) {
    call.Create? ==> Depth(Encoded(call.identity)) <= SCRIPT_DEPTH
  }

  function IssuedBy(issued: set<Id>, call: Call): set<Id> {
    if call.Create? then issued + {call.id} else issued
  }

  lemma PositiveClock(db: Db, now: int, issued: set<Id>)
    requires Inv(db, now, issued)
    ensures now > 0
  {
  }

  /** What a create does to a sound database. */
  lemma CreateWrites(db: Db, now: int, issued: set<Id>, call: Call)
    requires Inv(db, now, issued) && call.Create? && Admissible(now, issued, call)
    ensures var rows, row := RowsOf(db, now, call.user), NewRow(now, call.id, call.user, call.identity, call.ttl);
            var n := Excess(rows, call.limit);
            var stored := StoredByCreate(db, now, call.user, RowKeys(rows[..n]), row);
            var items := Insert(MembersOf(rows[n..]), MemberOf(row));
            Exec(db, now, call) == (Settle(stored, call.user, items, rows[n..] + [row]), Ok([row]))
  {
    hide ActiveRows, StaleIds, Insert, MembersOf, ProperSet, RecordSound, IndexSound, Covered, MaxExpiry, Load, RowKeys, IndexItems, Writes, Settle;
    var rows := RowsOf(db, now, call.user);
    var row := NewRow(now, call.id, call.user, call.identity, call.ttl);
    var n := Excess(rows, call.limit);
    SoundPrechecks(db, now, issued, call.user);
    FreshIsNobodyElses(db, now, issued, call.user, call.id);
    WritesOfCreate(Cleaned(db, now, call.user), now, call.id, call.user, call.identity, call.ttl, call.limit,
                   rows, rows[n..], row, RowKeys(rows[..n]));
  }

  lemma CreatedViews(db: Db, db': Db, now: int, ledger: Ledger, call: Call)
    requires call.Create? && call.ttl >= 1 && Agrees(db, now, ledger)
    requires View(db', now, call.id) == Some(Session(call.user, Encoded(call.identity), now, now + call.ttl))
    requires forall other :: other != call.id ==>
               View(db', now, other) == if other in Displaced(ledger, now, call.user, call.limit) then None else View(db, now, other)
    ensures Agrees(db', now, Next(ledger, now, call))
  {
    hide View, Displaced;
    forall id ensures View(db', now, id) == Recall(Next(ledger, now, call), now, id) {
      assert View(db, now, id) == Recall(ledger, now, id);
    }
  }

  lemma CreateRefines(db: Db, now: int, issued: set<Id>, ledger: Ledger, call: Call)
    requires Inv(db, now, issued) && Agrees(db, now, ledger)
    requires call.Create? && Admissible(now, issued, call) && Readable(call)
    ensures Inv(Exec(db, now, call).0, now, IssuedBy(issued, call))
    ensures Agrees(Exec(db, now, call).0, now, Next(ledger, now, call))
    ensures Answers(ledger, now, call, Exec(db, now, call).1)
  {
    hide Exec, Insert, MembersOf, MaxExpiry, Settle, StoredByCreate, RowKeys, Inv, View, Displaced, IdsOf, RowsOf, Excess, Agrees, Next,
         ScriptReads, Encoded, Depth, Encodable;
    PositiveClock(db, now, issued);
    ScriptReadsByDepth(call.identity);
    CreateWrites(db, now, issued, call);
    CreateAdds(db, now, issued, call.id, call.user, call.identity, call.ttl, call.limit);
    EvictedAreDisplaced(db, now, issued, ledger, call.user, call.limit);
    CreatedViews(db, Exec(db, now, call).0, now, ledger, call);
  }

  lemma LookupRefines(db: Db, now: int, issued: set<Id>, ledger: Ledger, id: Id)
    requires Inv(db, now, issued) && Agrees(db, now, ledger)
    ensures var (db', reply) := Exec(db, now, Lookup(id));
            Inv(db', now, issued) && Agrees(db', now, ledger) && Answers(ledger, now, Lookup(id), reply)
  {
    NeverBroken(db, now, issued, id);
    assert View(db, now, id) == Recall(ledger, now, id);
    if Load(db, now, id).Live? {
      TargetPrechecked(db, now, issued, id);
      CleanedLoads(db, now, IndexItems(db, Load(db, now, id).row.user), id);
      ReadKeepsSessions(db, now, issued, Load(db, now, id).row.user);
    }
  }

  lemma RenewRefines(db: Db, now: int, issued: set<Id>, ledger: Ledger, id: Id, ttl: int)
    requires Inv(db, now, issued) && Agrees(db, now, ledger)
    requires ttl >= 1 && now + ttl <= MAX_SAFE_INTEGER
    ensures var (db', reply) := Exec(db, now, Renew(id, ttl));
            Inv(db', now, issued) && Agrees(db', now, Next(ledger, now, Renew(id, ttl)))
            && Answers(ledger, now, Renew(id, ttl), reply)
  {
    hide ProperRow, RecordSound, IndexSound, Covered, MaxExpiry, ExtendRow, ActiveRows, StaleIds, Settle, ProperSet, SessionKeys;
    NeverBroken(db, now, issued, id);
    assert View(db, now, id) == Recall(ledger, now, id);
    if Load(db, now, id).Live? {
      TargetPrechecked(db, now, issued, id);
      RenewExtends(db, now, issued, id, ttl);
      var db' := Exec(db, now, Renew(id, ttl)).0;
      forall other ensures View(db', now, other) == Recall(Next(ledger, now, Renew(id, ttl)), now, other) {
        assert View(db, now, other) == Recall(ledger, now, other);
      }
    }
  }

  lemma RevokeRefines(db: Db, now: int, issued: set<Id>, ledger: Ledger, id: Id)
    requires Inv(db, now, issued) && Agrees(db, now, ledger)
    ensures var (db', reply) := Exec(db, now, Revoke(id));
            Inv(db', now, issued) && Agrees(db', now, Next(ledger, now, Revoke(id)))
            && Answers(ledger, now, Revoke(id), reply)
  {
    NeverBroken(db, now, issued, id);
    assert View(db, now, id) == Recall(ledger, now, id);
    if Load(db, now, id).Live? {
      TargetPrechecked(db, now, issued, id);
      RevokeRemoves(db, now, issued, id);
    }
    var db' := Exec(db, now, Revoke(id)).0;
    forall other ensures View(db', now, other) == Recall(Next(ledger, now, Revoke(id)), now, other) {
      assert View(db, now, other) == Recall(ledger, now, other);
    }
  }

  lemma ByUserRefines(db: Db, now: int, issued: set<Id>, ledger: Ledger, call: Call)
    requires Inv(db, now, issued) && Agrees(db, now, ledger)
    requires call.List? || call.RevokeUser?
    ensures Inv(Exec(db, now, call).0, now, issued)
    ensures Agrees(Exec(db, now, call).0, now, Next(ledger, now, call))
    ensures Answers(ledger, now, call, Exec(db, now, call).1)
  {
    var rows := RowsOf(db, now, call.user);
    SoundPrechecks(db, now, issued, call.user);
    LiveRowsInLedger(db, now, issued, ledger, call.user);
    if call.List? {
      ReadKeepsSessions(db, now, issued, call.user);
      forall row ensures row in rows <==> row.id in LiveOf(ledger, now, call.user) && row == RowOf(row.id, ledger[row.id]) {
        if row.id in LiveOf(ledger, now, call.user) && row == RowOf(row.id, ledger[row.id]) {
          var k :| 0 <= k < |rows| && rows[k].id == row.id;
          assert rows[k] in rows && rows[k] == row;
        }
      }
    } else {
      RevokeUserRemoves(db, now, issued, call.user);
    }
    var db' := Exec(db, now, call).0;
    forall other ensures View(db', now, other) == Recall(Next(ledger, now, call), now, other) {
      assert View(db, now, other) == Recall(ledger, now, other);
    }
  }

  /** One script run from a sound database answers as the ledger does and keeps the database sound. */
  lemma CallRefines(db: Db, now: int, issued: set<Id>, ledger: Ledger, call: Call)
    requires Inv(db, now, issued) && Agrees(db, now, ledger)
    requires Admissible(now, issued, call) && Readable(call)
    ensures Inv(Exec(db, now, call).0, now, IssuedBy(issued, call))
    ensures Agrees(Exec(db, now, call).0, now, Next(ledger, now, call))
    ensures Answers(ledger, now, call, Exec(db, now, call).1)
  {
    if call.Create? {
      CreateRefines(db, now, issued, ledger, call);
    } else if call.List? || call.RevokeUser? {
      ByUserRefines(db, now, issued, ledger, call);
    } else {
      match call {
        case Lookup(id) => LookupRefines(db, now, issued, ledger, id);
        case Renew(id, ttl) => RenewRefines(db, now, issued, ledger, id, ttl);
        case Revoke(id) => RevokeRefines(db, now, issued, ledger, id);
      }
    }
  }
}
