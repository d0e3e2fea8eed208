/** The Redis side of the session store (sdk/go/gateway/sessionauth/store.go): the data Redis holds, the
    commands the script uses, and the script itself, run step by step and specified by `Exec`.
    Keys are modelled by what they name; SessionKeys shows that no two of them collide. */
module SessionScript {
  import opened Optional
  import opened SessionIdentity

  type Id = string
  type User = string

  /** `identity`: the text stored under that name. `intact`: the stored hash is the hash of the stored identity text. */
  datatype Row = Row(version: int, id: Id, user: User, identity: Json, intact: bool, createdAt: int, expiresAt: int)

  /** Malformed: not JSON, not an object, or a field missing, of the wrong type or not integral. */
  datatype Content = Malformed | Parsed(row: Row)

  datatype Member = Member(score: int, id: Id)

  datatype Key = SessionKey(id: Id) | UserKey(user: User)

  datatype Entry =
    | Text(content: Content, deadline: Option<int>)
    | Sorted(items: seq<Member>, deadline: Option<int>)
    | Foreign(deadline: Option<int>)

  type Db = map<Key, Entry>

  datatype Call =
    | Create(id: Id, user: User, identity: Identity, ttl: int, limit: int)
    | Lookup(id: Id)
    | Renew(id: Id, ttl: int)
    | Revoke(id: Id)
    | List(user: User)
    | RevokeUser(user: User)

  datatype Reply = Ok(rows: seq<Row>) | Missing | Collision | Corrupt

  const MAX_SAFE_INTEGER := 9007199254740991

  // ----- order of a sorted set: by score, then by member -----

  predicate TextBefore(a: string, b: string) {
    b != [] && (a == [] || a[0] < b[0] || (a[0] == b[0] && TextBefore(a[1..], b[1..])))
  }

  predicate Before(m: Member, n: Member) {
    m.score < n.score || (m.score == n.score && TextBefore(m.id, n.id))
  }

  lemma {:induction false} TextBeforeTotal(a: string, b: string)
    ensures TextBefore(a, b) || TextBefore(b, a) || a == b
  {
    if a != [] && b != [] && a[0] == b[0] {
      TextBeforeTotal(a[1..], b[1..]);
      assert a == [a[0]] + a[1..] && b == [b[0]] + b[1..];
    }
  }

  lemma {:induction false} TextBeforeTransitive(a: string, b: string, c: string)
    requires TextBefore(a, b) && TextBefore(b, c)
    ensures TextBefore(a, c)
  {
    if a != [] && a[0] == b[0] == c[0] {
      TextBeforeTransitive(a[1..], b[1..], c[1..]);
    }
  }

  lemma {:induction false} TextBeforeIrreflexive(a: string)
    ensures !TextBefore(a, a)
  {
    if a != [] { TextBeforeIrreflexive(a[1..]); }
  }

  lemma BeforeTransitive(a: Member, b: Member, c: Member)
    requires Before(a, b) && Before(b, c)
    ensures Before(a, c)
  {
    if a.score == c.score { TextBeforeTransitive(a.id, b.id, c.id); }
  }

  lemma BeforeTotal(a: Member, b: Member)
    requires a != b
    ensures Before(a, b) <==> !Before(b, a)
  {
    TextBeforeTotal(a.id, b.id);
    if Before(a, b) && Before(b, a) {
      TextBeforeTransitive(a.id, b.id, a.id);
      TextBeforeIrreflexive(a.id);
    }
  }

  ghost predicate Ahead(m: Member, items: seq<Member>) {
    forall j :: 0 <= j < |items| ==> Before(m, items[j]) && m.id != items[j].id
  }

  /** What Redis itself guarantees of a sorted set: ordered, one entry per member. */
  ghost predicate ProperSet(items: seq<Member>) {
    items == [] || (Ahead(items[0], items[1..]) && ProperSet(items[1..]))
  }

  lemma {:induction false} ProperPair(items: seq<Member>, i: nat, j: nat)
    requires ProperSet(items) && i < j < |items|
    ensures Before(items[i], items[j]) && items[i].id != items[j].id
  {
    if i == 0 {
      assert items[1..][j - 1] == items[j];
    } else {
      ProperPair(items[1..], i - 1, j - 1);
    }
  }

  /** Redis drops a sorted set with its last member, so none is empty. */
  ghost predicate ProperDb(db: Db) {
    forall key :: key in db && db[key].Sorted? ==> db[key].items != [] && ProperSet(db[key].items)
  }

  function Without(items: seq<Member>, id: Id): seq<Member> {
    if items == [] then []
    else (if items[0].id == id then [] else [items[0]]) + Without(items[1..], id)
  }

  function Insert(items: seq<Member>, m: Member): seq<Member> {
    if items == [] || Before(m, items[0]) then [m] + items
    else [items[0]] + Insert(items[1..], m)
  }

  // ----- load -----

  datatype Loaded = Absent | Live(row: Row) | Broken

  /** '#sid ~= 43 or string.find(sid, "[^%w_-]")' negated. */
  predicate ScriptAcceptsId(id: Id) {
    |id| == 43 && forall c :: c in id ==> '0' <= c <= '9' || 'A' <= c <= 'Z' || 'a' <= c <= 'z' || c == '_' || c == '-'
  }

  predicate ProperRow(row: Row, id: Id, now: int) {
    && row.version == 1 && row.id == id && row.intact && row.user != ""
    && 0 < row.createdAt <= now && row.createdAt < row.expiresAt <= MAX_SAFE_INTEGER
    && ScriptAcceptsId(id)
    && ScriptReads(row.identity, row.user)
  }

  /** `load(sid)`: a record is dead once `expires_at <= now`, whether or not Redis has dropped the key yet. */
  function Load(db: Db, now: int, id: Id): Loaded {
    if SessionKey(id) !in db then Absent
    else match db[SessionKey(id)]
      case Text(Parsed(row), Some(_)) =>
        if !ProperRow(row, id, now) then Broken else if row.expiresAt <= now then Absent else Live(row)
      case _ => Broken
  }

  function IndexItems(db: Db, user: User): seq<Member> {
    if UserKey(user) in db && db[UserKey(user)].Sorted? then db[UserKey(user)].items else []
  }

  predicate IndexTyped(db: Db, user: User) {
    UserKey(user) in db ==> db[UserKey(user)].Sorted?
  }

  /** The prechecks of one index member. */
  predicate MemberAgrees(db: Db, now: int, user: User, m: Member) {
    match Load(db, now, m.id)
    case Absent => true
    case Live(row) => row.user == user && row.createdAt == m.score
    case Broken => false
  }

  function ActiveRows(db: Db, now: int, items: seq<Member>): seq<Row> {
    if items == [] then []
    else (match Load(db, now, items[0].id) case Live(row) => [row] case _ => []) + ActiveRows(db, now, items[1..])
  }

  function StaleIds(db: Db, now: int, items: seq<Member>): seq<Id> {
    if items == [] then []
    else (if Load(db, now, items[0].id).Live? then [] else [items[0].id]) + StaleIds(db, now, items[1..])
  }

  function MemberOf(row: Row): Member { Member(row.createdAt, row.id) }

  function MembersOf(rows: seq<Row>): (items: seq<Member>)
    ensures |items| == |rows|
    ensures forall i :: 0 <= i < |rows| ==> items[i] == MemberOf(rows[i])
  {
    seq(|rows|, i requires 0 <= i < |rows| => MemberOf(rows[i]))
  }

  function SessionKeys(ids: seq<Id>): set<Key> {
    set i | 0 <= i < |ids| :: SessionKey(ids[i])
  }

  function RowKeys(rows: seq<Row>): set<Key> {
    set i | 0 <= i < |rows| :: SessionKey(rows[i].id)
  }

  function MaxExpiry(rows: seq<Row>): int {
    if rows == [] then 0
    else var rest := MaxExpiry(rows[..|rows| - 1]);
         if rest < rows[|rows| - 1].expiresAt then rows[|rows| - 1].expiresAt else rest
  }

  // ----- the script as a function of the database -----

  function Latest(rows: seq<Row>, n: nat): seq<Row> {
    if |rows| <= n then rows else rows[|rows| - n..]
  }

  function DropRow(rows: seq<Row>, id: Id): seq<Row> {
    if rows == [] then [] else (if rows[0].id == id then [] else [rows[0]]) + DropRow(rows[1..], id)
  }

  function ExtendRow(rows: seq<Row>, id: Id, expiresAt: int): (r: seq<Row>)
    ensures |r| == |rows|
    ensures forall i :: 0 <= i < |r| ==> r[i] == if rows[i].id == id then rows[i].(expiresAt := expiresAt) else rows[i]
  {
    seq(|rows|, i requires 0 <= i < |rows| => if rows[i].id == id then rows[i].(expiresAt := expiresAt) else rows[i])
  }

  function NewRow(now: int, id: Id, user: User, identity: Identity, ttl: int): Row {
    Row(1, id, user, Encoded(identity), true, now, now + ttl)
  }

  /** The index after a run: the members kept, living as long as the longest of them, or no key at all. */
  function Settle(db: Db, user: User, items: seq<Member>, rows: seq<Row>): Db {
    if rows == [] then db - {UserKey(user)} else db[UserKey(user) := Sorted(items, Some(MaxExpiry(rows)))]
  }

  /** The writes of a run whose prechecks passed: `rows` are the user's live sessions, oldest first. */
  function Writes(db: Db, now: int, call: Call, user: User, rows: seq<Row>): (Db, Reply) {
    match call
    case Create(id, _, identity, ttl, limit) =>
      var kept := Latest(rows, if limit > 0 then limit - 1 else 0);
      var row := NewRow(now, id, user, identity, ttl);
      var stored := (db - RowKeys(rows[..|rows| - |kept|]))[SessionKey(id) := Text(Parsed(row), Some(now + ttl))];
      (Settle(stored, user, Insert(MembersOf(kept), MemberOf(row)), kept + [row]), Ok([row]))
    case Lookup(id) =>
      var target := Load(db, now, id);
      (Settle(db, user, MembersOf(rows), rows), if target.Live? then Ok([target.row]) else Missing)
    case Renew(id, ttl) =>
      var target := Load(db, now, id);
      if !target.Live? then (db, Missing)
      else
        var row := target.row.(expiresAt := now + ttl);
        var stored := db[SessionKey(id) := Text(Parsed(row), Some(now + ttl))];
        (Settle(stored, user, MembersOf(rows), ExtendRow(rows, id, now + ttl)), Ok([row]))
    case Revoke(id) =>
      (Settle(db - {SessionKey(id)}, user, MembersOf(DropRow(rows, id)), DropRow(rows, id)), Ok([]))
    case List(_) => (Settle(db, user, MembersOf(rows), rows), Ok(rows))
    case RevokeUser(_) => (db - RowKeys(rows) - {UserKey(user)}, Ok([]))
  }

  /** All prechecks pass: the index is a sorted set, agrees with every record, and holds the target. */
  ghost predicate Prechecked(db: Db, now: int, user: User, target: Option<Id>) {
    && IndexTyped(db, user)
    && (forall i :: 0 <= i < |IndexItems(db, user)| ==> MemberAgrees(db, now, user, IndexItems(db, user)[i]))
    && (target.Some? ==> exists i :: 0 <= i < |IndexItems(db, user)| && IndexItems(db, user)[i].id == target.value
                                     && Load(db, now, target.value).Live?)
  }

  ghost function Indexed(db: Db, now: int, call: Call, user: User, target: Option<Id>): (Db, Reply) {
    if !Prechecked(db, now, user, target) then (db, Corrupt)
    else
      var items := IndexItems(db, user);
      Writes(db - SessionKeys(StaleIds(db, now, items)), now, call, user, ActiveRows(db, now, items))
  }

  /** One run of the script: the new database and the reply. */
  ghost function Exec(db: Db, now: int, call: Call): (Db, Reply) {
    match call
    case Create(id, user, _, _, _) =>
      if SessionKey(id) in db then (db, Collision) else Indexed(db, now, call, user, None)
    case List(user) => Indexed(db, now, call, user, None)
    case RevokeUser(user) => Indexed(db, now, call, user, None)
    case _ =>
      match Load(db, now, call.id)
      case Absent => (db, Missing)
      case Broken => (db, Corrupt)
      case Live(row) => Indexed(db, now, call, row.user, Some(call.id))
  }

  // ----- facts about filtered rows -----

  function Excluding(items: seq<Member>, gone: set<Id>): seq<Member> {
    if items == [] then []
    else (if items[0].id in gone then [] else [items[0]]) + Excluding(items[1..], gone)
  }

  lemma {:induction false} ExcludingNothing(items: seq<Member>)
    ensures Excluding(items, {}) == items
  {
    if items != [] { ExcludingNothing(items[1..]); }
  }

  lemma {:induction false} WithoutExcluding(items: seq<Member>, gone: set<Id>, id: Id)
    ensures Without(Excluding(items, gone), id) == Excluding(items, gone + {id})
  {
    if items != [] {
      WithoutExcluding(items[1..], gone, id);
      var head := items[0];
      if head.id in gone {
        assert Excluding(items, gone) == Excluding(items[1..], gone);
      } else {
        assert Excluding(items, gone)[1..] == Excluding(items[1..], gone);
      }
    }
  }

  lemma {:induction false} WithoutAbsent(items: seq<Member>, id: Id)
    requires forall i :: 0 <= i < |items| ==> items[i].id != id
    ensures Without(items, id) == items
  {
    if items != [] { WithoutAbsent(items[1..], id); }
  }

  lemma {:induction false} ExcludingDead(db: Db, now: int, user: User, items: seq<Member>, gone: set<Id>)
    requires forall i :: 0 <= i < |items| ==> MemberAgrees(db, now, user, items[i])
    requires forall i :: 0 <= i < |items| ==> (items[i].id in gone <==> !Load(db, now, items[i].id).Live?)
    ensures Excluding(items, gone) == MembersOf(ActiveRows(db, now, items))
  {
    if items != [] {
      ExcludingDead(db, now, user, items[1..], gone);
      assert MemberAgrees(db, now, user, items[0]);
      assert items[0].id in gone <==> !Load(db, now, items[0].id).Live?;
    }
  }

  lemma {:induction false} StaleIdsExact(db: Db, now: int, items: seq<Member>)
    ensures forall id :: id in StaleIds(db, now, items) ==> !Load(db, now, id).Live?
    ensures forall i :: 0 <= i < |items| && !Load(db, now, items[i].id).Live? ==> items[i].id in StaleIds(db, now, items)
  {
    if items != [] { StaleIdsExact(db, now, items[1..]); }
  }

  function IdSet(ids: seq<Id>): set<Id> {
    set i | 0 <= i < |ids| :: ids[i]
  }

  /** Removing every stale member leaves exactly the active ones, in order. */
  lemma CleanedIndex(db: Db, now: int, user: User, items: seq<Member>)
    requires forall i :: 0 <= i < |items| ==> MemberAgrees(db, now, user, items[i])
    ensures Excluding(items, IdSet(StaleIds(db, now, items))) == MembersOf(ActiveRows(db, now, items))
  {
    StaleIdsExact(db, now, items);
    ExcludingDead(db, now, user, items, IdSet(StaleIds(db, now, items)));
  }

  /** Where an active row comes from. */
  lemma {:induction false} ActiveRowSource(db: Db, now: int, user: User, items: seq<Member>, k: nat) returns (i: nat)
    requires forall i :: 0 <= i < |items| ==> MemberAgrees(db, now, user, items[i])
    requires k < |ActiveRows(db, now, items)|
    ensures i < |items| && k <= i
    ensures var row := ActiveRows(db, now, items)[k];
            Load(db, now, items[i].id) == Live(row) && items[i] == MemberOf(row) && row.user == user && row.expiresAt > now
  {
    assert MemberAgrees(db, now, user, items[0]);
    if Load(db, now, items[0].id).Live? {
      if k == 0 {
        i := 0;
      } else {
        var j := ActiveRowSource(db, now, user, items[1..], k - 1);
        i := j + 1;
      }
    } else {
      var j := ActiveRowSource(db, now, user, items[1..], k);
      i := j + 1;
    }
  }

  lemma {:induction false} ActiveRowsComplete(db: Db, now: int, items: seq<Member>, i: nat)
    requires i < |items| && Load(db, now, items[i].id).Live?
    ensures Load(db, now, items[i].id).row in ActiveRows(db, now, items)
  {
    if i > 0 { ActiveRowsComplete(db, now, items[1..], i - 1); }
  }

  /** One step of the loop over an index. */
  lemma ScanStep(db: Db, now: int, items: seq<Member>, i: nat, active: seq<Row>, stale: seq<Id>)
    requires i < |items|
    ensures var item := Load(db, now, items[i].id);
            && active + ActiveRows(db, now, items[i..])
               == (if item.Live? then active + [item.row] else active) + ActiveRows(db, now, items[i + 1..])
            && stale + StaleIds(db, now, items[i..])
               == (if item.Live? then stale else stale + [items[i].id]) + StaleIds(db, now, items[i + 1..])
  {
    hide Load;
    assert items[i..][0] == items[i] && items[i..][1..] == items[i + 1..];
    var rows, ids := ActiveRows(db, now, items[i + 1..]), StaleIds(db, now, items[i + 1..]);
    assert [] + rows == rows && [] + ids == ids;
    if Load(db, now, items[i].id).Live? {
      var row := Load(db, now, items[i].id).row;
      assert active + ([row] + rows) == active + [row] + rows;
    } else {
      assert stale + ([items[i].id] + ids) == stale + [items[i].id] + ids;
    }
  }

  lemma ScanEnd(db: Db, now: int, items: seq<Member>, active: seq<Row>, stale: seq<Id>)
    ensures active + ActiveRows(db, now, items[|items|..]) == active && stale + StaleIds(db, now, items[|items|..]) == stale
    ensures ActiveRows(db, now, items[0..]) == ActiveRows(db, now, items) && StaleIds(db, now, items[0..]) == StaleIds(db, now, items)
  {
    hide Load;
    assert items[|items|..] == [] && items[0..] == items;
  }

  lemma PrependProper(m: Member, items: seq<Member>)
    requires ProperSet(items) && Ahead(m, items)
    ensures ProperSet([m] + items)
  {
    assert ([m] + items)[1..] == items;
  }

  /** The active rows inherit the order and the distinctness of the index. */
  lemma {:induction false} ActiveRowsProper(db: Db, now: int, user: User, items: seq<Member>)
    requires ProperSet(items)
    requires forall i :: 0 <= i < |items| ==> MemberAgrees(db, now, user, items[i])
    ensures ProperSet(MembersOf(ActiveRows(db, now, items)))
  {
    if items != [] {
      var tail := items[1..];
      ActiveRowsProper(db, now, user, tail);
      var rest := ActiveRows(db, now, tail);
      assert MemberAgrees(db, now, user, items[0]);
      if Load(db, now, items[0].id).Live? {
        forall j | 0 <= j < |rest|
          ensures Before(items[0], MembersOf(rest)[j]) && items[0].id != MembersOf(rest)[j].id
        {
          var i := ActiveRowSource(db, now, user, tail, j);
          assert Before(items[0], tail[i]) && items[0].id != tail[i].id;
        }
        PrependProper(items[0], MembersOf(rest));
        assert MembersOf(ActiveRows(db, now, items)) == [items[0]] + MembersOf(rest);
      } else {
        assert ActiveRows(db, now, items) == rest;
      }
    }
  }

  lemma WithoutFirst(rows: seq<Row>)
    requires rows != [] && ProperSet(MembersOf(rows))
    ensures Without(MembersOf(rows), rows[0].id) == MembersOf(rows[1..])
    ensures ProperSet(MembersOf(rows[1..]))
  {
    assert MembersOf(rows)[1..] == MembersOf(rows[1..]);
    WithoutAbsent(MembersOf(rows[1..]), rows[0].id);
  }

  lemma {:induction false} DroppedMembers(rows: seq<Row>, id: Id)
    ensures Without(MembersOf(rows), id) == MembersOf(DropRow(rows, id))
  {
    if rows != [] {
      DroppedMembers(rows[1..], id);
      assert MembersOf(rows)[1..] == MembersOf(rows[1..]);
    }
  }

  ghost predicate DistinctIds(rows: seq<Row>) {
    forall i, j :: 0 <= i < j < |rows| ==> rows[i].id != rows[j].id
  }

  lemma ProperRowsDistinct(rows: seq<Row>)
    requires ProperSet(MembersOf(rows))
    ensures DistinctIds(rows)
  {
    forall i, j | 0 <= i < j < |rows| ensures rows[i].id != rows[j].id {
      ProperPair(MembersOf(rows), i, j);
    }
  }

  lemma {:induction false} DropRowAbsent(rows: seq<Row>, id: Id)
    requires forall i :: 0 <= i < |rows| ==> rows[i].id != id
    ensures DropRow(rows, id) == rows
  {
    if rows != [] { DropRowAbsent(rows[1..], id); }
  }

  lemma {:induction false} DropRowAt(rows: seq<Row>, k: nat)
    requires k < |rows|
    requires DistinctIds(rows)
    ensures DropRow(rows, rows[k].id) == rows[..k] + rows[k + 1..]
  {
    if k == 0 {
      DropRowAbsent(rows[1..], rows[0].id);
      assert DropRow(rows, rows[0].id) == rows[1..];
    } else {
      DropRowAt(rows[1..], k - 1);
      assert rows[..k] == [rows[0]] + rows[1..][..k - 1];
      assert rows[1..][k - 1 + 1..] == rows[k + 1..];
    }
  }

  lemma OneMoreGone(base: Db, rows: seq<Row>, k: nat)
    requires k < |rows|
    ensures base - RowKeys(rows[..k]) - {SessionKey(rows[k].id)} == base - RowKeys(rows[..k + 1])
  {
    assert RowKeys(rows[..k + 1]) == RowKeys(rows[..k]) + {SessionKey(rows[k].id)};
  }

  // ----- Redis and the run of the script -----

  function SetIndex(db: Db, user: User, items: seq<Member>, deadline: Option<int>): Db {
    if items == [] then db - {UserKey(user)} else db[UserKey(user) := Sorted(items, deadline)]
  }

  /** What the Go side sends: a positive lifetime and a limit of at least one. */
  predicate ProperCall(call: Call) {
    (call.Create? ==> call.ttl >= 1 && call.limit >= 1) && (call.Renew? ==> call.ttl >= 1)
  }

  lemma LiveRowsLater(db: Db, now: int, user: User, items: seq<Member>)
    requires forall i :: 0 <= i < |items| ==> MemberAgrees(db, now, user, items[i])
    ensures forall k :: 0 <= k < |ActiveRows(db, now, items)| ==> ActiveRows(db, now, items)[k].expiresAt > now
  {
    forall k | 0 <= k < |ActiveRows(db, now, items)| ensures ActiveRows(db, now, items)[k].expiresAt > now {
      var _ := ActiveRowSource(db, now, user, items, k);
    }
  }

  /** What the writes may assume of a scan whose prechecks passed. */
  lemma ScannedFacts(db: Db, now: int, user: User, items: seq<Member>)
    requires ProperSet(items)
    requires forall i :: 0 <= i < |items| ==> MemberAgrees(db, now, user, items[i])
    ensures Excluding(items, {}) == items
    ensures Excluding(items, IdSet(StaleIds(db, now, items))) == MembersOf(ActiveRows(db, now, items))
    ensures ProperSet(MembersOf(ActiveRows(db, now, items)))
    ensures forall k :: 0 <= k < |ActiveRows(db, now, items)| ==> ActiveRows(db, now, items)[k].expiresAt > now
    ensures forall id :: id in StaleIds(db, now, items) ==> !Load(db, now, id).Live?
  {
    ExcludingNothing(items);
    CleanedIndex(db, now, user, items);
    LiveRowsLater(db, now, user, items);
    StaleIdsExact(db, now, items);
    ActiveRowsProper(db, now, user, items);
  }

  lemma KeptLacksNew(db: Db, now: int, user: User, items: seq<Member>, id: Id)
    requires forall i :: 0 <= i < |items| ==> MemberAgrees(db, now, user, items[i])
    requires SessionKey(id) !in db
    ensures forall k :: 0 <= k < |ActiveRows(db, now, items)| ==> ActiveRows(db, now, items)[k].id != id
  {
    forall k | 0 <= k < |ActiveRows(db, now, items)| ensures ActiveRows(db, now, items)[k].id != id {
      var _ := ActiveRowSource(db, now, user, items, k);
    }
  }

  lemma {:induction false} DroppedRowsAreRows(rows: seq<Row>, id: Id)
    ensures forall row :: row in DropRow(rows, id) <==> row in rows && row.id != id
  {
    if rows != [] { DroppedRowsAreRows(rows[1..], id); }
  }

  lemma RevokedUser(base: Db, user: User, items: seq<Member>, deadline: Option<int>, rows: seq<Row>)
    ensures SetIndex(base, user, items, deadline) - RowKeys(rows) - {UserKey(user)} == base - RowKeys(rows) - {UserKey(user)}
  {
  }

  lemma WritesOfCreate(db: Db, now: int, id: Id, user: User, identity: Identity, ttl: int, limit: int,
                       rows: seq<Row>, kept: seq<Row>, row: Row, gone: set<Key>)
    requires limit >= 1 && kept == Latest(rows, limit - 1) && row == NewRow(now, id, user, identity, ttl)
    requires gone == RowKeys(rows[..|rows| - |kept|])
    ensures Writes(db, now, Create(id, user, identity, ttl, limit), user, rows).0
         == Settle((db - gone)[SessionKey(id) := Text(Parsed(row), Some(now + ttl))], user,
                   Insert(MembersOf(kept), MemberOf(row)), kept + [row])
    ensures Writes(db, now, Create(id, user, identity, ttl, limit), user, rows).1 == Ok([row])
  {
  }

  class Redis {
    var db: Db
    var now: int

    constructor (now: int)
      ensures db == map[] && this.now == now
    {
      this.db, this.now := map[], now;
    }

    method Del(key: Key)
      modifies this`db
      ensures db == old(db) - {key}
    {
      db := db - {key};
    }

    method Set(key: Key, content: Content, ttl: int)
      modifies this`db
      ensures db == old(db)[key := Text(content, Some(now + ttl))]
    {
      db := db[key := Text(content, Some(now + ttl))];
    }

    method ZRem(user: User, id: Id)
      requires UserKey(user) in db ==> db[UserKey(user)].Sorted?
      modifies this`db
      ensures db == if UserKey(user) in old(db)
                    then SetIndex(old(db), user, Without(old(db)[UserKey(user)].items, id), old(db)[UserKey(user)].deadline)
                    else old(db)
    {
      if UserKey(user) in db {
        var entry := db[UserKey(user)];
        var rest := Without(entry.items, id);
        if rest == [] {
          db := db - {UserKey(user)};
        } else {
          db := db[UserKey(user) := Sorted(rest, entry.deadline)];
        }
      }
    }

    method ZAdd(user: User, m: Member)
      requires UserKey(user) in db ==> db[UserKey(user)].Sorted?
      modifies this`db
      ensures db == if UserKey(user) in old(db)
                    then old(db)[UserKey(user) := Sorted(Insert(Without(old(db)[UserKey(user)].items, m.id), m), old(db)[UserKey(user)].deadline)]
                    else old(db)[UserKey(user) := Sorted([m], None)]
    {
      if UserKey(user) in db {
        var entry := db[UserKey(user)];
        db := db[UserKey(user) := Sorted(Insert(Without(entry.items, m.id), m), entry.deadline)];
      } else {
        db := db[UserKey(user) := Sorted([m], None)];
      }
    }

    method PExpireAt(user: User, at: int)
      requires UserKey(user) in db ==> db[UserKey(user)].Sorted?
      requires at > now
      modifies this`db
      ensures db == if UserKey(user) in old(db)
                    then old(db)[UserKey(user) := Sorted(old(db)[UserKey(user)].items, Some(at))]
                    else old(db)
    {
      if UserKey(user) in db {
        db := db[UserKey(user) := Sorted(db[UserKey(user)].items, Some(at))];
      }
    }

    /** The precheck loop: read-only, it splits the index into active rows and stale members. */
    method Scan(user: User, id: Id) returns (sound: bool, active: seq<Row>, stale: seq<Id>, found: bool)
      requires IndexTyped(db, user)
      ensures sound <==> forall i :: 0 <= i < |IndexItems(db, user)| ==> MemberAgrees(db, now, user, IndexItems(db, user)[i])
      ensures sound ==> active == ActiveRows(db, now, IndexItems(db, user)) && stale == StaleIds(db, now, IndexItems(db, user))
      ensures sound ==> (found <==> exists i :: 0 <= i < |IndexItems(db, user)| && IndexItems(db, user)[i].id == id
                                                && Load(db, now, id).Live?)
    {
      hide Load, IndexItems, ActiveRows, StaleIds;
      var members := IndexItems(db, user);
      active, stale, found, sound := [], [], false, true;
      var i := 0;
      ScanEnd(db, now, members, active, stale);
      assert [] + ActiveRows(db, now, members) == ActiveRows(db, now, members);
      assert [] + StaleIds(db, now, members) == StaleIds(db, now, members);
      while i < |members|
        invariant 0 <= i <= |members|
        invariant forall j :: 0 <= j < i ==> MemberAgrees(db, now, user, members[j])
        invariant active + ActiveRows(db, now, members[i..]) == ActiveRows(db, now, members)
        invariant stale + StaleIds(db, now, members[i..]) == StaleIds(db, now, members)
        invariant found <==> exists j :: 0 <= j < i && members[j].id == id && Load(db, now, id).Live?
      {
        var item := Load(db, now, members[i].id);
        ScanStep(db, now, members, i, active, stale);
        match item {
          case Broken =>
            assert !MemberAgrees(db, now, user, members[i]);
            sound := false;
            return;
          case Absent =>
            stale := stale + [members[i].id];
          case Live(row) =>
            if row.user != user || row.createdAt != members[i].score {
              assert !MemberAgrees(db, now, user, members[i]);
              sound := false;
              return;
            }
            active := active + [row];
            if members[i].id == id { found := true; }
        }
        i := i + 1;
      }
      ScanEnd(db, now, members, active, stale);
    }

    /** The DEL and ZREM pair that forgets one session. */
    method Forget(user: User, id: Id, ghost base: Db, ghost items: seq<Member>, ghost deadline: Option<int>)
      requires db == SetIndex(base, user, items, deadline)
      modifies this`db
      ensures db == SetIndex(base - {SessionKey(id)}, user, Without(items, id), deadline)
    {
      Del(SessionKey(id));
      ZRem(user, id);
    }

    /** 'for _,sid in ipairs(stale) do DEL; ZREM end' */
    method Clean(user: User, ghost items: seq<Member>, ghost deadline: Option<int>, stale: seq<Id>)
      requires db == SetIndex(db, user, items, deadline)
      requires Excluding(items, {}) == items
      modifies this`db
      ensures db == SetIndex(old(db) - SessionKeys(stale), user, Excluding(items, IdSet(stale)), deadline)
    {
      var i := 0;
      assert SessionKeys(stale[..0]) == {} && IdSet(stale[..0]) == {};
      assert db - {} == db;
      while i < |stale|
        invariant 0 <= i <= |stale|
        invariant db == SetIndex(old(db) - SessionKeys(stale[..i]), user, Excluding(items, IdSet(stale[..i])), deadline)
      {
        Forget(user, stale[i], old(db) - SessionKeys(stale[..i]), Excluding(items, IdSet(stale[..i])), deadline);
        WithoutExcluding(items, IdSet(stale[..i]), stale[i]);
        assert IdSet(stale[..i + 1]) == IdSet(stale[..i]) + {stale[i]};
        assert SessionKeys(stale[..i + 1]) == SessionKeys(stale[..i]) + {SessionKey(stale[i])};
        assert old(db) - SessionKeys(stale[..i]) - {SessionKey(stale[i])} == old(db) - SessionKeys(stale[..i + 1]);
        i := i + 1;
      }
      assert stale[..i] == stale;
    }

    /** 'while #active >= limit do' delete the oldest. */
    method Evict(user: User, rows: seq<Row>, limit: int, ghost base: Db, ghost deadline: Option<int>) returns (active: seq<Row>)
      requires limit >= 1
      requires db == SetIndex(base, user, MembersOf(rows), deadline)
      requires ProperSet(MembersOf(rows))
      modifies this`db
      ensures active == Latest(rows, limit - 1)
      ensures |active| <= |rows| && forall k :: 0 <= k < |active| ==> active[k] in rows
      ensures db == SetIndex(base - RowKeys(rows[..|rows| - |active|]), user, MembersOf(active), deadline)
    {
      ghost var k := 0;
      active := rows;
      assert rows[..0] == [];
      while |active| >= limit
        invariant 0 <= k <= |rows| && active == rows[k..] && ProperSet(MembersOf(active))
        invariant k > 0 ==> |active| >= limit - 1
        invariant db == SetIndex(base - RowKeys(rows[..k]), user, MembersOf(active), deadline)
      {
        var oldest := active[0];
        WithoutFirst(active);
        Forget(user, oldest.id, base - RowKeys(rows[..k]), MembersOf(active), deadline);
        OneMoreGone(base, rows, k);
        active := active[1..];
        k := k + 1;
      }
    }

    /** The maximum over the surviving rows, then PEXPIREAT or DEL of the index. */
    method Finish(user: User, rows: seq<Row>, ghost items: seq<Member>, ghost base: Db, ghost deadline: Option<int>)
      requires db == SetIndex(base, user, items, deadline)
      requires rows == [] <==> items == []
      requires forall i :: 0 <= i < |rows| ==> rows[i].expiresAt > now
      requires now > 0
      modifies this`db
      ensures db == Settle(base, user, items, rows)
    {
      var expires := 0;
      var i := 0;
      while i < |rows|
        invariant 0 <= i <= |rows|
        invariant expires == MaxExpiry(rows[..i])
        invariant i > 0 ==> expires > now
      {
        assert rows[..i + 1][..i] == rows[..i];
        expires := if expires < rows[i].expiresAt then rows[i].expiresAt else expires;
        i := i + 1;
      }
      assert rows[..i] == rows;
      if expires > now {
        PExpireAt(user, expires);
      } else {
        Del(UserKey(user));
      }
    }

    method DeleteRows(rows: seq<Row>)
      modifies this`db
      ensures db == old(db) - RowKeys(rows)
    {
      var i := 0;
      while i < |rows|
        invariant 0 <= i <= |rows|
        invariant db == old(db) - RowKeys(rows[..i])
      {
        Del(SessionKey(rows[i].id));
        assert RowKeys(rows[..i + 1]) == RowKeys(rows[..i]) + {SessionKey(rows[i].id)};
        i := i + 1;
      }
      assert rows[..i] == rows;
    }

    /** SET, ZADD and the index lifetime for a new session. */
    method StoreNew(row: Row, ttl: int, kept: seq<Row>, ghost base: Db, ghost deadline: Option<int>)
      requires db == SetIndex(base, row.user, MembersOf(kept), deadline)
      requires now > 0 && ttl >= 1 && row.expiresAt == now + ttl
      requires forall k :: 0 <= k < |kept| ==> kept[k].expiresAt > now && kept[k].id != row.id
      modifies this`db
      ensures db == Settle(base[SessionKey(row.id) := Text(Parsed(row), Some(now + ttl))], row.user,
                           Insert(MembersOf(kept), MemberOf(row)), kept + [row])
    {
      ghost var stored := base[SessionKey(row.id) := Text(Parsed(row), Some(now + ttl))];
      ghost var lasting := if kept == [] then None else deadline;
      WithoutAbsent(MembersOf(kept), row.id);
      Set(SessionKey(row.id), Parsed(row), ttl);
      assert db == SetIndex(stored, row.user, MembersOf(kept), deadline);
      ZAdd(row.user, MemberOf(row));
      assert Insert([], MemberOf(row)) == [MemberOf(row)];
      assert db == SetIndex(stored, row.user, Insert(MembersOf(kept), MemberOf(row)), lasting);
      Finish(row.user, kept + [row], Insert(MembersOf(kept), MemberOf(row)), stored, lasting);
    }

    method CommitCreate(id: Id, user: User, identity: Identity, ttl: int, limit: int, active: seq<Row>,
                        ghost base: Db, ghost deadline: Option<int>) returns (reply: Reply)
      requires db == SetIndex(base, user, MembersOf(active), deadline) && ProperSet(MembersOf(active))
      requires now > 0 && ttl >= 1 && limit >= 1
      requires forall r :: r in active ==> r.expiresAt > now && r.id != id
      modifies this`db
      ensures (db, reply) == Writes(base, now, Create(id, user, identity, ttl, limit), user, active)
    {
      hide ProperSet, Insert, Before, MaxExpiry, SetIndex;
      var row := NewRow(now, id, user, identity, ttl);
      var kept := Evict(user, active, limit, base, deadline);
      ghost var gone := RowKeys(active[..|active| - |kept|]);
      WritesOfCreate(base, now, id, user, identity, ttl, limit, active, kept, row, gone);
      StoreNew(row, ttl, kept, base - gone, deadline);
      reply := Ok([row]);
    }

    /** The loop that takes one row out of `active` and stops. */
    static method DropFirst(active: seq<Row>, id: Id) returns (rows: seq<Row>)
      requires DistinctIds(active)
      ensures rows == DropRow(active, id)
    {
      var i := 0;
      while i < |active|
        invariant 0 <= i <= |active|
        invariant forall j :: 0 <= j < i ==> active[j].id != id
      {
        if active[i].id == id {
          DropRowAt(active, i);
          return active[..i] + active[i + 1..];
        }
        i := i + 1;
      }
      DropRowAbsent(active, id);
      return active;
    }

    method CommitRevoke(id: Id, user: User, active: seq<Row>,
                        ghost base: Db, ghost deadline: Option<int>) returns (reply: Reply)
      requires db == SetIndex(base, user, MembersOf(active), deadline) && ProperSet(MembersOf(active))
      requires now > 0
      requires forall k :: 0 <= k < |active| ==> active[k].expiresAt > now
      modifies this`db
      ensures (db, reply) == Writes(base, now, Revoke(id), user, active)
    {
      DroppedMembers(active, id);
      Forget(user, id, base, MembersOf(active), deadline);
      ProperRowsDistinct(active);
      var rows := DropFirst(active, id);
      DroppedRowsAreRows(active, id);
      Finish(user, rows, MembersOf(rows), base - {SessionKey(id)}, deadline);
      reply := Ok([]);
    }

    method CommitRenew(id: Id, user: User, ttl: int, target: Row, active: seq<Row>,
                       ghost base: Db, ghost deadline: Option<int>) returns (reply: Reply)
      requires db == SetIndex(base, user, MembersOf(active), deadline)
      requires now > 0 && ttl >= 1 && Load(base, now, id) == Live(target)
      requires forall k :: 0 <= k < |active| ==> active[k].expiresAt > now
      modifies this`db
      ensures (db, reply) == Writes(base, now, Renew(id, ttl), user, active)
    {
      var row := target.(expiresAt := now + ttl);
      Set(SessionKey(id), Parsed(row), ttl);
      var rows := ExtendRow(active, id, now + ttl);
      Finish(user, rows, MembersOf(active), base[SessionKey(id) := Text(Parsed(row), Some(now + ttl))], deadline);
      reply := Ok([row]);
    }

    /** The writes, once nothing can fail any more. */
    method Commit(call: Call, user: User, target: Option<Row>, active: seq<Row>, stale: seq<Id>) returns (reply: Reply)
      requires ProperDb(db) && now > 0 && ProperCall(call)
      requires forall i :: 0 <= i < |IndexItems(db, user)| ==> MemberAgrees(db, now, user, IndexItems(db, user)[i])
      requires IndexTyped(db, user)
      requires active == ActiveRows(db, now, IndexItems(db, user)) && stale == StaleIds(db, now, IndexItems(db, user))
      requires call.Lookup? || call.Renew? || call.Revoke? ==> target.Some? && Load(db, now, call.id) == Live(target.value)
      requires call.Create? ==> SessionKey(call.id) !in db
      modifies this`db
      ensures (db, reply) == Writes(old(db) - SessionKeys(stale), now, call, user, active)
    {
      hide ActiveRows, StaleIds, ProperSet, Before, Excluding, MaxExpiry, Insert, MemberAgrees, IdSet, DropRow, ExtendRow, MembersOf,
           ProperRow, NewRow, Latest, Settle, RowKeys;
      ghost var items := IndexItems(db, user);
      ghost var deadline := if UserKey(user) in db then db[UserKey(user)].deadline else None;
      ghost var base := db - SessionKeys(stale);
      ScannedFacts(db, now, user, items);
      if call.Create? { KeptLacksNew(db, now, user, items, call.id); }
      Clean(user, items, deadline, stale);
      match call {
        case RevokeUser(_) =>
          DeleteRows(active);
          Del(UserKey(user));
          RevokedUser(base, user, MembersOf(active), deadline, active);
          reply := Ok([]);
        case Create(id, _, identity, ttl, limit) =>
          reply := CommitCreate(id, user, identity, ttl, limit, active, base, deadline);
        case Renew(id, ttl) =>
          reply := CommitRenew(id, user, ttl, target.value, active, base, deadline);
        case Revoke(id) =>
          reply := CommitRevoke(id, user, active, base, deadline);
        case Lookup(_) =>
          Finish(user, active, MembersOf(active), base, deadline);
          reply := Ok([target.value]);
        case List(_) =>
          Finish(user, active, MembersOf(active), base, deadline);
          reply := Ok(active);
      }
    }

    /** The whole script: TIME is `now`, every precheck precedes the first write. */
    method Eval(call: Call) returns (reply: Reply)
      requires ProperDb(db) && now > 0 && ProperCall(call)
      modifies this`db
      ensures (db, reply) == Exec(old(db), now, call)
    {
      var user: User := "";
      var target: Option<Row> := None;
      match call {
        case Create(id, u, _, _, _) =>
          user := u;
          if SessionKey(id) in db { return Collision; }
        case List(u) => user := u;
        case RevokeUser(u) => user := u;
        case _ =>
          match Load(db, now, call.id) {
            case Absent => return Missing;
            case Broken => return Corrupt;
            case Live(row) =>
              target := Some(row);
              user := row.user;
          }
      }
      if UserKey(user) in db && !db[UserKey(user)].Sorted? { return Corrupt; }
      var wanted := if call.List? || call.RevokeUser? then "" else call.id;
      var sound, active, stale, found := Scan(user, wanted);
      if !sound { return Corrupt; }
      if target.Some? && !found { return Corrupt; }
      ghost var goal := if target.Some? then Some(wanted) else None;
      assert Prechecked(db, now, user, goal);
      reply := Commit(call, user, target, active, stale);
    }
  }
}
