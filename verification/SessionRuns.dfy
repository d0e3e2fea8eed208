/** Whole runs of the session store: calls from any number of clients, the clock moving on, and Redis
    dropping expired keys whenever it likes. */
module SessionRuns {
  import opened Optional
  import opened SessionIdentity
  import opened SessionScript
  import opened SessionRefinement

  // ----- the environment's steps -----

  /** The key has a deadline and the deadline has passed. */
  predicate Expired(db: Db, now: int, key: Key) {
    key in db && (match db[key]
                  case Text(_, Some(d)) => d <= now
                  case Sorted(_, Some(d)) => d <= now
                  case Foreign(Some(d)) => d <= now
                  case _ => false)
  }

  /** Time alone changes no record; it only makes sessions die on schedule. */
  lemma WaitRefines(db: Db, now: int, now': int, issued: set<Id>, ledger: Ledger)
    requires Inv(db, now, issued) && Agrees(db, now, ledger) && now <= now'
    ensures Inv(db, now', issued) && Agrees(db, now', ledger)
  {
    forall id
      ensures RecordSound(db, now', issued, id) && Covered(db, now', id)
      ensures View(db, now', id) == Recall(ledger, now', id)
    {
      assert RecordSound(db, now, issued, id) && Covered(db, now, id);
      assert View(db, now, id) == Recall(ledger, now, id);
    }
    forall user ensures IndexSound(db, issued, user) {
    }
  }

  /** Redis dropping an expired key is unobservable. */
  lemma DropRefines(db: Db, now: int, issued: set<Id>, ledger: Ledger, key: Key)
    requires Inv(db, now, issued) && Agrees(db, now, ledger) && Expired(db, now, key)
    ensures Inv(db - {key}, now, issued) && Agrees(db - {key}, now, ledger)
  {
    var db' := db - {key};
    forall id
      ensures RecordSound(db', now, issued, id)
      ensures Load(db', now, id).Live? || Load(db, now, id).Live? ==> Load(db', now, id) == Load(db, now, id)
      ensures Covered(db', now, id)
    {
      assert RecordSound(db, now, issued, id) && Covered(db, now, id);
    }
    forall user ensures IndexSound(db', issued, user) {
      assert IndexSound(db, issued, user);
      if UserKey(user) in db' {
        var items := db[UserKey(user)].items;
        forall i | 0 <= i < |items| ensures MemberSound(db', issued, user, items[i]) {
          assert MemberSound(db, issued, user, items[i]);
        }
      }
    }
    forall id ensures View(db', now, id) == Recall(ledger, now, id) {
      assert View(db, now, id) == Recall(ledger, now, id);
    }
  }

  // ----- runs -----

  datatype Event = Run(call: Call) | Wait(ms: nat) | Drop(key: Key)

  datatype World = World(db: Db, now: int, issued: set<Id>)

  ghost function Step(w: World, e: Event): World {
    match e
    case Run(call) => World(Exec(w.db, w.now, call).0, w.now, IssuedBy(w.issued, call))
    case Wait(ms) => w.(now := w.now + ms)
    case Drop(key) => if Expired(w.db, w.now, key) then w.(db := w.db - {key}) else w
  }

  ghost function RunAll(w: World, events: seq<Event>): World
    decreases |events|
  {
    if events == [] then w else RunAll(Step(w, events[0]), events[1..])
  }

  /** The replies of the calls, in order. */
  ghost function Replies(w: World, events: seq<Event>): seq<Reply>
    decreases |events|
  {
    if events == [] then []
    else (if events[0].Run? then [Exec(w.db, w.now, events[0].call).1] else []) + Replies(Step(w, events[0]), events[1..])
  }

  /** Every call of the run is one the Go side makes, with fresh identifiers and readable identities. */
  predicate GoodRun(now: int, issued: set<Id>, events: seq<Event>)
    decreases |events|
  {
    events == [] ||
    match events[0]
    case Run(call) =>
      Admissible(now, issued, call) && Readable(call) && GoodRun(now, IssuedBy(issued, call), events[1..])
    case Wait(ms) => GoodRun(now + ms, issued, events[1..])
    case Drop(_) => GoodRun(now, issued, events[1..])
  }

  /** The ledger after a run: waiting and dropped keys leave no trace in it. */
  function LedgerAfter(ledger: Ledger, now: int, events: seq<Event>): Ledger
    decreases |events|
  {
    if events == [] then ledger
    else match events[0]
      case Run(call) => LedgerAfter(Next(ledger, now, call), now, events[1..])
      case Wait(ms) => LedgerAfter(ledger, now + ms, events[1..])
      case Drop(_) => LedgerAfter(ledger, now, events[1..])
  }

  /** The replies are those of the ledger. */
  ghost predicate Explained(ledger: Ledger, now: int, events: seq<Event>, replies: seq<Reply>)
    decreases |events|
  {
    if events == [] then replies == []
    else match events[0]
      case Run(call) =>
        replies != [] && Answers(ledger, now, call, replies[0]) && Explained(Next(ledger, now, call), now, events[1..], replies[1..])
      case Wait(ms) => Explained(ledger, now + ms, events[1..], replies)
      case Drop(_) => Explained(ledger, now, events[1..], replies)
  }

  /** Refinement over whole runs: every reply is the ledger's, and the final database still agrees with it. */
  lemma {:induction false} RunRefines(w: World, ledger: Ledger, events: seq<Event>)
    requires Inv(w.db, w.now, w.issued) && Agrees(w.db, w.now, ledger)
    requires GoodRun(w.now, w.issued, events)
    ensures Explained(ledger, w.now, events, Replies(w, events))
    ensures var end := RunAll(w, events);
            Inv(end.db, end.now, end.issued) && Agrees(end.db, end.now, LedgerAfter(ledger, w.now, events))
    decreases |events|
  {
    if events != [] {
      var next := Step(w, events[0]);
      match events[0] {
        case Run(call) =>
          CallRefines(w.db, w.now, w.issued, ledger, call);
          RunRefines(next, Next(ledger, w.now, call), events[1..]);
          assert Replies(w, events)[1..] == Replies(next, events[1..]);
        case Wait(ms) =>
          WaitRefines(w.db, w.now, w.now + ms, w.issued, ledger);
          RunRefines(next, ledger, events[1..]);
          assert Replies(w, events) == Replies(next, events[1..]);
        case Drop(key) =>
          if Expired(w.db, w.now, key) { DropRefines(w.db, w.now, w.issued, ledger, key); }
          RunRefines(next, ledger, events[1..]);
          assert Replies(w, events) == Replies(next, events[1..]);
      }
    }
  }

  ghost function Empty(now: int): World { World(map[], now, {}) }

  lemma EmptyIsSound(now: int)
    requires now > 0
    ensures Inv(map[], now, {}) && Agrees(map[], now, map[])
  {
  }

  /** No reachable state ever reports corruption or a collision. */
  lemma {:induction false} NeverCorrupt(ledger: Ledger, now: int, events: seq<Event>, replies: seq<Reply>, k: nat)
    requires Explained(ledger, now, events, replies)
    requires k < |replies|
    ensures replies[k].Ok? || replies[k].Missing?
    decreases |events|
  {
    match events[0] {
      case Run(call) =>
        if k > 0 { NeverCorrupt(Next(ledger, now, call), now, events[1..], replies[1..], k - 1); }
      case Wait(ms) => NeverCorrupt(ledger, now + ms, events[1..], replies, k);
      case Drop(_) => NeverCorrupt(ledger, now, events[1..], replies, k);
    }
  }

  /** From an empty Redis: replies are the ledger's, none is an error, lookups see exactly the ledger. */
  lemma StoreRefinesLedger(now: int, events: seq<Event>)
    requires now > 0 && GoodRun(now, {}, events)
    ensures Explained(map[], now, events, Replies(Empty(now), events))
    ensures forall k :: 0 <= k < |Replies(Empty(now), events)| ==>
              Replies(Empty(now), events)[k].Ok? || Replies(Empty(now), events)[k].Missing?
    ensures var end := RunAll(Empty(now), events);
            forall id :: View(end.db, end.now, id) == Recall(LedgerAfter(map[], now, events), end.now, id)
  {
    EmptyIsSound(now);
    RunRefines(Empty(now), map[], events);
    forall k | 0 <= k < |Replies(Empty(now), events)|
      ensures Replies(Empty(now), events)[k].Ok? || Replies(Empty(now), events)[k].Missing?
    {
      NeverCorrupt(map[], now, events, Replies(Empty(now), events), k);
    }
  }

  /** The deadline of a key, or a value below every deadline. */
  function Deadline(db: Db, key: Key): int {
    if key in db && db[key].Sorted? && db[key].deadline.Some? then db[key].deadline.value else -1
  }

  /** Index agreement in every reachable state: each stored record belongs to its own user's index under its
      creation time while it lives, each member is dead or its user's, and no index dies before a live member. */
  lemma IndexAgreement(now: int, events: seq<Event>)
    requires now > 0 && GoodRun(now, {}, events)
    ensures var end := RunAll(Empty(now), events);
            && (forall id :: Load(end.db, end.now, id).Live? ==>
                  var row := Load(end.db, end.now, id).row;
                  && MemberOf(row) in IndexItems(end.db, row.user)
                  && Deadline(end.db, UserKey(row.user)) >= row.expiresAt)
            && (forall user :: forall m :: m in IndexItems(end.db, user) && Load(end.db, end.now, m.id).Live? ==>
                  Load(end.db, end.now, m.id).row.user == user && Load(end.db, end.now, m.id).row.createdAt == m.score)
            && (forall id :: !Load(end.db, end.now, id).Broken?)
  {
    EmptyIsSound(now);
    RunRefines(Empty(now), map[], events);
    var end := RunAll(Empty(now), events);
    forall id
      ensures !Load(end.db, end.now, id).Broken?
      ensures Load(end.db, end.now, id).Live? ==>
                var row := Load(end.db, end.now, id).row;
                && MemberOf(row) in IndexItems(end.db, row.user)
                && Deadline(end.db, UserKey(row.user)) >= row.expiresAt
    {
      NeverBroken(end.db, end.now, end.issued, id);
      assert Covered(end.db, end.now, id);
    }
    forall user, m | m in IndexItems(end.db, user) && Load(end.db, end.now, m.id).Live?
      ensures Load(end.db, end.now, m.id).row.user == user && Load(end.db, end.now, m.id).row.createdAt == m.score
    {
      assert IndexSound(end.db, end.issued, user);
      var i :| 0 <= i < |IndexItems(end.db, user)| && IndexItems(end.db, user)[i] == m;
      SoundMemberAgrees(end.db, end.now, end.issued, user, i);
    }
  }

  // ----- the cap on a user's sessions -----

  /** A finite set of ledger entries has an oldest member. */
  lemma {:induction false} Oldest(ledger: Ledger, ids: set<Id>) returns (oldest: Id)
    requires ids != {} && forall id :: id in ids ==> id in ledger
    ensures oldest in ids
    ensures forall id :: id in ids && id != oldest ==> Before(Stamp(ledger, oldest), Stamp(ledger, id))
    decreases |ids|
  {
    var id :| id in ids;
    var rest := ids - {id};
    assert forall other :: other in ids && other != id ==> other in rest;
    if rest == {} {
      oldest := id;
    } else {
      var first := Oldest(ledger, rest);
      BeforeTotal(Stamp(ledger, first), Stamp(ledger, id));
      if Before(Stamp(ledger, first), Stamp(ledger, id)) {
        oldest := first;
      } else {
        oldest := id;
        forall other | other in ids && other != id ensures Before(Stamp(ledger, id), Stamp(ledger, other)) {
          if other != first {
            BeforeTransitive(Stamp(ledger, id), Stamp(ledger, first), Stamp(ledger, other));
          }
        }
      }
    }
  }

  /** Likewise a newest one. */
  lemma {:induction false} Newest(ledger: Ledger, ids: set<Id>) returns (newest: Id)
    requires ids != {} && forall id :: id in ids ==> id in ledger
    ensures newest in ids
    ensures forall id :: id in ids && id != newest ==> Before(Stamp(ledger, id), Stamp(ledger, newest))
    decreases |ids|
  {
    var id :| id in ids;
    var rest := ids - {id};
    assert forall other :: other in ids && other != id ==> other in rest;
    if rest == {} {
      newest := id;
    } else {
      var last := Newest(ledger, rest);
      BeforeTotal(Stamp(ledger, id), Stamp(ledger, last));
      if Before(Stamp(ledger, id), Stamp(ledger, last)) {
        newest := last;
      } else {
        newest := id;
        forall other | other in ids && other != id ensures Before(Stamp(ledger, other), Stamp(ledger, id)) {
          if other != last {
            BeforeTransitive(Stamp(ledger, other), Stamp(ledger, last), Stamp(ledger, id));
          }
        }
      }
    }
  }

  lemma {:induction false} SubsetSize<T>(small: set<T>, big: set<T>)
    requires small <= big
    ensures |small| <= |big|
  {
    if small != {} {
      var x :| x in small;
      SubsetSize(small - {x}, big - {x});
    }
  }

  function Survivors(ledger: Ledger, now: int, user: User, limit: int): set<Id> {
    LiveOf(ledger, now, user) - Displaced(ledger, now, user, limit)
  }

  /** A newer session has fewer sessions newer than itself. */
  lemma NewerShrinks(ledger: Ledger, now: int, user: User, a: Id, b: Id)
    requires a in LiveOf(ledger, now, user) && b in LiveOf(ledger, now, user)
    requires Before(Stamp(ledger, a), Stamp(ledger, b))
    ensures |Newer(ledger, now, user, b)| < |Newer(ledger, now, user, a)|
  {
    var newerA, newerB := Newer(ledger, now, user, a), Newer(ledger, now, user, b);
    forall k | k in newerB ensures k in newerA {
      BeforeTransitive(Stamp(ledger, a), Stamp(ledger, b), Stamp(ledger, k));
    }
    TextBeforeIrreflexive(b);
    assert b in newerA && b !in newerB;
    SubsetSize(newerB, newerA - {b});
  }

  /** Create keeps exactly the latest `limit - 1` of the user's live sessions. */
  lemma CreateKeepsTheLatest(ledger: Ledger, now: int, user: User, limit: int)
    requires limit >= 1
    ensures var live, kept := LiveOf(ledger, now, user), Survivors(ledger, now, user, limit);
            && |kept| == (if |live| < limit - 1 then |live| else limit - 1)
            && (forall k, d :: k in kept && d in Displaced(ledger, now, user, limit) ==> Before(Stamp(ledger, d), Stamp(ledger, k)))
  {
    var live, kept := LiveOf(ledger, now, user), Survivors(ledger, now, user, limit);
    var gone := Displaced(ledger, now, user, limit);
    forall k, d | k in kept && d in gone ensures Before(Stamp(ledger, d), Stamp(ledger, k)) {
      BeforeTotal(Stamp(ledger, d), Stamp(ledger, k));
      if Before(Stamp(ledger, k), Stamp(ledger, d)) { NewerShrinks(ledger, now, user, k, d); }
    }
    if kept != {} {
      var oldest := Oldest(ledger, kept);
      SubsetSize(kept - {oldest}, Newer(ledger, now, user, oldest));
    }
    if gone == {} {
      assert kept == live;
    } else {
      var newest := Newest(ledger, gone);
      forall k | k in Newer(ledger, now, user, newest) ensures k in kept {
        if k in gone && k != newest { BeforeTotal(Stamp(ledger, k), Stamp(ledger, newest)); }
        TextBeforeIrreflexive(newest);
      }
      SubsetSize(Newer(ledger, now, user, newest), kept);
      SubsetSize(kept, live);
    }
  }

  ghost predicate Capped(ledger: Ledger, now: int, limit: int) {
    forall user :: |LiveOf(ledger, now, user)| <= limit
  }

  lemma NextKeepsCap(ledger: Ledger, now: int, call: Call, limit: int)
    requires Capped(ledger, now, limit) && limit >= 1
    requires call.Create? ==> call.limit == limit
    ensures Capped(Next(ledger, now, call), now, limit)
  {
    var ledger' := Next(ledger, now, call);
    forall user ensures |LiveOf(ledger', now, user)| <= limit {
      if call.Create? && call.user == user {
        CreateKeepsTheLatest(ledger, now, user, limit);
        SubsetSize(LiveOf(ledger', now, user), Survivors(ledger, now, user, limit) + {call.id});
      } else {
        SubsetSize(LiveOf(ledger', now, user), LiveOf(ledger, now, user));
      }
    }
  }

  predicate SameLimit(events: seq<Event>, limit: int) {
    forall i :: 0 <= i < |events| && events[i].Run? && events[i].call.Create? ==> events[i].call.limit == limit
  }

  ghost function ClockAfter(now: int, events: seq<Event>): int
    decreases |events|
  {
    if events == [] then now
    else ClockAfter(if events[0].Wait? then now + events[0].ms else now, events[1..])
  }

  /** With one limit for all stores, no reachable state has more than `limit` live sessions of any user. */
  lemma {:induction false} CapHolds(ledger: Ledger, now: int, events: seq<Event>, limit: int)
    requires Capped(ledger, now, limit) && limit >= 1 && SameLimit(events, limit)
    ensures Capped(LedgerAfter(ledger, now, events), ClockAfter(now, events), limit)
    decreases |events|
  {
    if events != [] {
      assert SameLimit(events[1..], limit);
      match events[0] {
        case Run(call) =>
          NextKeepsCap(ledger, now, call, limit);
          CapHolds(Next(ledger, now, call), now, events[1..], limit);
        case Wait(ms) =>
          var later := now + ms;
          forall user ensures |LiveOf(ledger, later, user)| <= limit {
            SubsetSize(LiveOf(ledger, later, user), LiveOf(ledger, now, user));
          }
          CapHolds(ledger, later, events[1..], limit);
        case Drop(_) => CapHolds(ledger, now, events[1..], limit);
      }
    }
  }

  lemma {:induction false} ClockOfRun(w: World, events: seq<Event>)
    ensures RunAll(w, events).now == ClockAfter(w.now, events)
    decreases |events|
  {
    hide Exec, Expired;
    if events != [] { ClockOfRun(Step(w, events[0]), events[1..]); }
  }

  /** In the database itself: from an empty Redis, no reachable state holds more than `limit` live sessions of a user. */
  lemma StoreKeepsCap(now: int, events: seq<Event>, limit: int, user: User, ids: set<Id>)
    requires now > 0 && GoodRun(now, {}, events) && limit >= 1 && SameLimit(events, limit)
    requires var end := RunAll(Empty(now), events);
             forall id :: id in ids ==> View(end.db, end.now, id).Some? && View(end.db, end.now, id).value.user == user
    ensures |ids| <= limit
  {
    hide GoodRun, Explained, View, RunAll, SameLimit;
    var end := RunAll(Empty(now), events);
    StoreRefinesLedger(now, events);
    ClockOfRun(Empty(now), events);
    CapHolds(map[], now, events, limit);
    var ledger := LedgerAfter(map[], now, events);
    forall id | id in ids ensures id in LiveOf(ledger, end.now, user) {
      assert View(end.db, end.now, id) == Recall(ledger, end.now, id);
    }
    SubsetSize(ids, LiveOf(ledger, end.now, user));
  }

  /** What has ended stays ended: over any run, no renewal, create or passing of time brings a session back. */
  lemma {:induction false} DeadStaysDead(ledger: Ledger, now: int, issued: set<Id>, events: seq<Event>, id: Id)
    requires GoodRun(now, issued, events) && id in issued && Recall(ledger, now, id).None?
    ensures Recall(LedgerAfter(ledger, now, events), ClockAfter(now, events), id).None?
    decreases |events|
  {
    hide Displaced, LiveOf, Readable;
    if events != [] {
      match events[0] {
        case Run(call) =>
          assert Recall(Next(ledger, now, call), now, id).None?;
          DeadStaysDead(Next(ledger, now, call), now, IssuedBy(issued, call), events[1..], id);
        case Wait(ms) => DeadStaysDead(ledger, now + ms, issued, events[1..], id);
        case Drop(_) => DeadStaysDead(ledger, now, issued, events[1..], id);
      }
    }
  }

  /** Renewing neither saves a session from the next eviction nor exposes another one to it. */
  lemma RenewKeepsEvictionOrder(ledger: Ledger, now: int, id: Id, ttl: int, user: User, limit: int)
    requires ttl >= 1
    ensures Displaced(Next(ledger, now, Renew(id, ttl)), now, user, limit) == Displaced(ledger, now, user, limit)
  {
    var ledger' := Next(ledger, now, Renew(id, ttl));
    assert LiveOf(ledger', now, user) == LiveOf(ledger, now, user);
    forall k | k in LiveOf(ledger, now, user)
      ensures Newer(ledger', now, user, k) == Newer(ledger, now, user, k)
    {
    }
  }

  // ----- validation before writing -----

  /** From any contents whatever, corrupted ones included: an answer other than Ok leaves every key as it was. */
  lemma FailureWritesNothing(db: Db, now: int, call: Call)
    ensures !Exec(db, now, call).1.Ok? ==> Exec(db, now, call).0 == db
  {
    var user := if call.Create? || call.List? || call.RevokeUser? then call.user
                else if Load(db, now, call.id).Live? then Load(db, now, call.id).row.user else "";
    if call.Lookup? || call.Renew? || call.Revoke? {
      CleanedLoads(db, now, IndexItems(db, user), call.id);
    }
  }

  /** The user a call works for: named by the call, or the owner of the session it names. */
  function Subject(db: Db, now: int, call: Call): User {
    if call.Create? || call.List? || call.RevokeUser? then call.user
    else if Load(db, now, call.id).Live? then Load(db, now, call.id).row.user else ""
  }

  /** The key is another user's index, or holds another user's session. */
  predicate SomeoneElses(db: Db, user: User, key: Key) {
    key in db &&
    match key
    case UserKey(other) => other != user
    case SessionKey(id) => db[key].Text? && db[key].content.Parsed? && db[key].content.row.user != user
  }

  lemma {:induction false} StaleAreMembers(db: Db, now: int, items: seq<Member>)
    ensures forall id :: id in StaleIds(db, now, items) ==> exists i :: 0 <= i < |items| && items[i].id == id
  {
    if items != [] {
      StaleAreMembers(db, now, items[1..]);
      forall id | id in StaleIds(db, now, items) ensures exists i :: 0 <= i < |items| && items[i].id == id {
        if id in StaleIds(db, now, items[1..]) {
          var i :| 0 <= i < |items[1..]| && items[1..][i].id == id;
          assert items[i + 1].id == id;
        } else {
          assert items[0].id == id;
        }
      }
    }
  }

  lemma EvictedAreRows(rows: seq<Row>)
    ensures forall n: nat :: n <= |rows| ==> RowKeys(rows[..n]) <= RowKeys(rows)
  {
    forall n: nat | n <= |rows| ensures RowKeys(rows[..n]) <= RowKeys(rows) {
      forall key | key in RowKeys(rows[..n]) ensures key in RowKeys(rows) {
        var i :| 0 <= i < n && key == SessionKey(rows[..n][i].id);
        assert rows[i] == rows[..n][i];
      }
    }
  }

  lemma StaleOwned(db: Db, now: int, issued: set<Id>, user: User, id: Id)
    requires Inv(db, now, issued) && SessionKey(id) in SessionKeys(StaleIds(db, now, IndexItems(db, user)))
    ensures SessionKey(id) in db ==> db[SessionKey(id)].Text? && db[SessionKey(id)].content.Parsed?
                                     && db[SessionKey(id)].content.row.user == user
  {
    var items := IndexItems(db, user);
    StaleAreMembers(db, now, items);
    assert id in StaleIds(db, now, items);
    var i :| 0 <= i < |items| && items[i].id == id;
    assert IndexSound(db, issued, user);
    assert MemberSound(db, issued, user, items[i]);
  }

  /** Neither the stale members nor the live rows of an index are anybody else's. */
  lemma NotAmongRows(db: Db, now: int, issued: set<Id>, user: User, key: Key)
    requires Inv(db, now, issued) && SomeoneElses(db, user, key)
    ensures key in Cleaned(db, now, user) && Cleaned(db, now, user)[key] == db[key]
    ensures key !in RowKeys(RowsOf(db, now, user))
  {
    hide ActiveRows, StaleIds, ProperSet, Covered;
    var items := IndexItems(db, user);
    if key.SessionKey? {
      assert RecordSound(db, now, issued, key.id);
      if key in SessionKeys(StaleIds(db, now, items)) { StaleOwned(db, now, issued, user, key.id); }
      if key in RowKeys(RowsOf(db, now, user)) {
        var k :| 0 <= k < |RowsOf(db, now, user)| && RowsOf(db, now, user)[k].id == key.id;
        ActiveRowsAreLive(db, now, issued, user, RowsOf(db, now, user)[k]);
        assert false;
      }
    }
  }

  /** The keys a call may bring into being: its subject's index, and for a create the new session's. */
  predicate OwnKey(db: Db, now: int, call: Call, key: Key) {
    key == UserKey(Subject(db, now, call)) || (call.Create? && key == SessionKey(call.id))
  }

  /** From any contents, no call brings any other key into being. */
  lemma NoStrayKeys(db: Db, now: int, call: Call, key: Key)
    requires key !in db && !OwnKey(db, now, call, key)
    ensures key !in Exec(db, now, call).0
  {
    hide ActiveRows, StaleIds, Insert, MembersOf, MaxExpiry, RowKeys, ProperRow, Prechecked, Latest, ExtendRow, DropRow;
  }

  lemma OthersKept(db: Db, now: int, issued: set<Id>, call: Call, key: Key)
    requires Inv(db, now, issued) && Admissible(now, issued, call)
    requires SomeoneElses(db, Subject(db, now, call), key)
    ensures key in Exec(db, now, call).0 && Exec(db, now, call).0[key] == db[key]
  {
    hide ActiveRows, StaleIds, Insert, MembersOf, ProperSet, Covered, MaxExpiry, IndexItems, RowKeys, IndexSound;
    var user := Subject(db, now, call);
    NotAmongRows(db, now, issued, user, key);
    EvictedAreRows(RowsOf(db, now, user));
    if call.Create? { FreshIsNobodyElses(db, now, issued, user, call.id); }
  }

  /** From a sound database a call touches only its own user's index and sessions: every other user's index and
      sessions stay as they are, and no key comes into being but the user's index and the session created. */
  lemma OthersUntouched(db: Db, now: int, issued: set<Id>, call: Call, key: Key)
    requires Inv(db, now, issued) && Admissible(now, issued, call)
    ensures SomeoneElses(db, Subject(db, now, call), key) ==>
              key in Exec(db, now, call).0 && Exec(db, now, call).0[key] == db[key]
    ensures key !in db && !OwnKey(db, now, call, key) ==> key !in Exec(db, now, call).0
  {
    hide Exec, Inv, SomeoneElses, OwnKey;
    if SomeoneElses(db, Subject(db, now, call), key) { OthersKept(db, now, issued, call, key); }
    if key !in db && !OwnKey(db, now, call, key) { NoStrayKeys(db, now, call, key); }
  }

  // ----- tidying up -----

  /** The member's record is stored, under its time of creation, and the index does not end before it. */
  predicate Kept(db: Db, m: Member, deadline: int) {
    && SessionKey(m.id) in db && db[SessionKey(m.id)].Text? && db[SessionKey(m.id)].content.Parsed?
    && var row := db[SessionKey(m.id)].content.row;
       row.id == m.id && row.createdAt == m.score && row.expiresAt <= deadline
  }

  /** The index of the user, if there is one, lists only stored records and ends with the longest of them. */
  ghost predicate Tidy(db: Db, user: User) {
    UserKey(user) in db ==>
      var index := db[UserKey(user)];
      && index.Sorted? && index.deadline.Some?
      && (forall m :: m in index.items ==> Kept(db, m, index.deadline.value))
      && exists m :: m in index.items && Kept(db, m, index.deadline.value)
                  && db[SessionKey(m.id)].content.row.expiresAt == index.deadline.value
  }

  ghost predicate StoredRows(db: Db, rows: seq<Row>) {
    forall k :: 0 <= k < |rows| ==>
      && SessionKey(rows[k].id) in db && db[SessionKey(rows[k].id)].Text?
      && db[SessionKey(rows[k].id)].content == Parsed(rows[k]) && rows[k].expiresAt > 0
  }

  lemma {:induction false} MaxExpiryReached(rows: seq<Row>)
    requires rows != [] && forall k :: 0 <= k < |rows| ==> rows[k].expiresAt > 0
    ensures exists k :: 0 <= k < |rows| && rows[k].expiresAt == MaxExpiry(rows)
  {
    var last := |rows| - 1;
    if last > 0 && MaxExpiry(rows[..last]) >= rows[last].expiresAt {
      MaxExpiryReached(rows[..last]);
      var k :| 0 <= k < |rows[..last]| && rows[..last][k].expiresAt == MaxExpiry(rows[..last]);
      assert rows[k].expiresAt == MaxExpiry(rows);
    } else {
      assert rows[last].expiresAt == MaxExpiry(rows);
    }
  }

  lemma SettleIsTidy(db: Db, user: User, items: seq<Member>, rows: seq<Row>)
    requires StoredRows(db, rows) && forall m :: m in items <==> m in MembersOf(rows)
    ensures Tidy(Settle(db, user, items, rows), user)
  {
    if rows != [] {
      var db' := Settle(db, user, items, rows);
      MaxExpiryBounds(rows);
      MaxExpiryReached(rows);
      forall m | m in items ensures Kept(db', m, MaxExpiry(rows)) {
        var k :| 0 <= k < |MembersOf(rows)| && MembersOf(rows)[k] == m;
        assert MembersOf(rows)[k] == MemberOf(rows[k]);
      }
      var k :| 0 <= k < |rows| && rows[k].expiresAt == MaxExpiry(rows);
      assert MembersOf(rows)[k] == MemberOf(rows[k]) && MemberOf(rows[k]) in items;
    }
  }

  lemma {:induction false} DropRowMembers(rows: seq<Row>, id: Id)
    ensures forall row :: row in DropRow(rows, id) <==> row in rows && row.id != id
  {
    if rows != [] { DropRowMembers(rows[1..], id); }
  }

  /** Removing or replacing the record of one session leaves the others. */
  lemma OthersStored(db: Db, rows: seq<Row>, id: Id)
    requires StoredRows(db, rows)
    ensures StoredRows(db - {SessionKey(id)}, DropRow(rows, id))
  {
    DropRowMembers(rows, id);
    forall k | 0 <= k < |DropRow(rows, id)| ensures DropRow(rows, id)[k].id != id && DropRow(rows, id)[k] in rows {
      assert DropRow(rows, id)[k] in DropRow(rows, id);
    }
  }

  lemma RenewedStored(db: Db, rows: seq<Row>, id: Id, expiresAt: int, deadline: Option<int>)
    requires StoredRows(db, rows) && expiresAt > 0
    requires SessionKey(id) in db && db[SessionKey(id)].Text? && db[SessionKey(id)].content.Parsed?
    ensures var row := db[SessionKey(id)].content.row.(expiresAt := expiresAt);
            StoredRows(db[SessionKey(id) := Text(Parsed(row), deadline)], ExtendRow(rows, id, expiresAt))
  {
  }

  lemma ExtendedMembers(rows: seq<Row>, id: Id, expiresAt: int)
    ensures MembersOf(ExtendRow(rows, id, expiresAt)) == MembersOf(rows)
  {
  }

  lemma CreatedStored(db: Db, rows: seq<Row>, n: nat, row: Row, deadline: Option<int>)
    requires StoredRows(db, rows) && DistinctIds(rows) && n <= |rows| && SessionKey(row.id) !in db && row.expiresAt > 0
    ensures StoredRows((db - RowKeys(rows[..n]))[SessionKey(row.id) := Text(Parsed(row), deadline)], rows[n..] + [row])
  {
    forall k | n <= k < |rows| ensures SessionKey(rows[k].id) !in RowKeys(rows[..n]) && rows[k].id != row.id {
      assert SessionKey(rows[k].id) in db;
    }
    var all := rows[n..] + [row];
    assert forall k :: 0 <= k < |rows| - n ==> all[k] == rows[n + k];
  }

  lemma CreatedMembers(kept: seq<Row>, row: Row)
    ensures forall m :: m in Insert(MembersOf(kept), MemberOf(row)) <==> m in MembersOf(kept + [row])
  {
    InsertContents(MembersOf(kept), MemberOf(row));
    assert MembersOf(kept + [row]) == MembersOf(kept) + [MemberOf(row)];
  }

  lemma NoIndexIsTidy(db: Db, user: User)
    requires UserKey(user) !in db
    ensures Tidy(db, user)
  {
  }

  lemma WritesAreTidy(db: Db, now: int, call: Call, user: User, rows: seq<Row>)
    requires StoredRows(db, rows) && DistinctIds(rows) && now > 0
    requires call.Create? ==> SessionKey(call.id) !in db && call.ttl > 0
    requires call.Renew? ==> Load(db, now, call.id).Live? && call.ttl > 0
    ensures Tidy(Writes(db, now, call, user, rows).0, user)
  {
    hide Tidy, StoredRows, Settle, Insert, MembersOf, DropRow, ExtendRow, RowKeys, ProperRow, MaxExpiry;
    match call {
      case Create(id, _, identity, ttl, limit) =>
        var n := |rows| - |Latest(rows, if limit > 0 then limit - 1 else 0)|;
        var row := NewRow(now, id, user, identity, ttl);
        assert Latest(rows, if limit > 0 then limit - 1 else 0) == rows[n..];
        assert row == NewRow(now, id, user, identity, ttl) && row.id == id;
        CreatedStored(db, rows, n, row, Some(now + ttl));
        CreatedMembers(rows[n..], row);
        SettleIsTidy((db - RowKeys(rows[..n]))[SessionKey(id) := Text(Parsed(row), Some(now + ttl))], user,
                     Insert(MembersOf(rows[n..]), MemberOf(row)), rows[n..] + [row]);
      case Lookup(_) => SettleIsTidy(db, user, MembersOf(rows), rows);
      case Renew(id, ttl) =>
        var row := Load(db, now, id).row.(expiresAt := now + ttl);
        RenewedStored(db, rows, id, now + ttl, Some(now + ttl));
        ExtendedMembers(rows, id, now + ttl);
        SettleIsTidy(db[SessionKey(id) := Text(Parsed(row), Some(now + ttl))], user, MembersOf(rows), ExtendRow(rows, id, now + ttl));
      case Revoke(id) =>
        OthersStored(db, rows, id);
        SettleIsTidy(db - {SessionKey(id)}, user, MembersOf(DropRow(rows, id)), DropRow(rows, id));
      case List(_) => SettleIsTidy(db, user, MembersOf(rows), rows);
      case RevokeUser(_) => NoIndexIsTidy(db - RowKeys(rows) - {UserKey(user)}, user);
    }
  }

  lemma ActiveAreStored(db: Db, now: int, user: User, items: seq<Member>)
    requires forall i :: 0 <= i < |items| ==> MemberAgrees(db, now, user, items[i])
    requires now > 0
    ensures StoredRows(db - SessionKeys(StaleIds(db, now, items)), ActiveRows(db, now, items))
  {
    hide ProperRow, ActiveRows, StaleIds, MemberAgrees;
    var rows, db' := ActiveRows(db, now, items), db - SessionKeys(StaleIds(db, now, items));
    StaleIdsExact(db, now, items);
    forall k | 0 <= k < |rows|
      ensures SessionKey(rows[k].id) in db' && db'[SessionKey(rows[k].id)].Text?
      ensures db'[SessionKey(rows[k].id)].content == Parsed(rows[k]) && rows[k].expiresAt > 0
    {
      var i := ActiveRowSource(db, now, user, items, k);
      assert MemberOf(rows[k]).id == rows[k].id == items[i].id;
    }
  }

  /** From any contents of sorted sets as Redis keeps them: after every call that succeeds the index of the user
      concerned lists only records that are stored, and ends exactly with the longest of them. */
  lemma IndexIsTidy(db: Db, now: int, call: Call)
    requires ProperDb(db) && now > 0 && (call.Create? || call.Renew? ==> call.ttl > 0)
    ensures Exec(db, now, call).1.Ok? ==> Tidy(Exec(db, now, call).0, Subject(db, now, call))
  {
    var user := Subject(db, now, call);
    var items := IndexItems(db, user);
    if Exec(db, now, call).1.Ok? {
      assert forall i :: 0 <= i < |items| ==> MemberAgrees(db, now, user, items[i]);
      assert ProperSet(items);
      ActiveAreStored(db, now, user, items);
      ActiveRowsProper(db, now, user, items);
      ProperRowsDistinct(ActiveRows(db, now, items));
      if call.Renew? { CleanedLoads(db, now, items, call.id); }
      hide Tidy, StoredRows, Load, ActiveRows, StaleIds, Writes, DistinctIds, MemberAgrees, ProperSet, IndexItems;
      WritesAreTidy(db - SessionKeys(StaleIds(db, now, items)), now, call, user, ActiveRows(db, now, items));
    }
  }

  lemma WritesAddNothing(db: Db, now: int, call: Call, user: User, rows: seq<Row>, key: Key)
    requires key !in db && key.SessionKey?
    ensures key in Writes(db, now, call, user, rows).0 ==> (call.Create? || call.Renew?) && key == SessionKey(call.id)
  {
    hide Load, RowKeys, MembersOf, Insert, MaxExpiry, ExtendRow, DropRow, NewRow;
  }

  /** And the members whose sessions were over have lost their records. */
  lemma StaleAreGone(db: Db, now: int, call: Call, m: Member)
    requires Exec(db, now, call).1.Ok? && m in IndexItems(db, Subject(db, now, call)) && !Load(db, now, m.id).Live?
    ensures SessionKey(m.id) in Exec(db, now, call).0 ==> call.Create? && m.id == call.id
  {
    var items := IndexItems(db, Subject(db, now, call));
    var i :| 0 <= i < |items| && items[i] == m;
    StaleIdsExact(db, now, items);
    var stale := StaleIds(db, now, items);
    if call.Renew? || call.Lookup? || call.Revoke? { CleanedLoads(db, now, items, call.id); }
    hide Load, ActiveRows, StaleIds, Prechecked, IndexItems;
    assert SessionKey(m.id) !in db - SessionKeys(stale);
    WritesAddNothing(db - SessionKeys(stale), now, call, Subject(db, now, call), ActiveRows(db, now, items), SessionKey(m.id));
  }
}
