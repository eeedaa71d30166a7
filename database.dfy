/**
 * The relational store the controllers talk to, as an abstract state: the `users`
 * rows, the `pictures` rows in insertion order, the `interest_tags` vocabulary (tag
 * name to id) and the `interests` associations, a set so that a duplicate insert is
 * ignored as `ON CONFLICT DO NOTHING` makes it.
 *
 * Each SQL statement the controllers issue is one `Stmt` value; `Write` gives the
 * effect of each data statement. A `Session` adds the snapshot `BEGIN` takes and
 * `ROLLBACK` restores. The class `Connection` is the `query` function's side: it
 * executes statements in order, logs each one, and lets a fault oracle make any of
 * them throw, in which case the statement has no effect.
 */
module Database {
  import opened Wrappers

  type UserId = string
  type TagId = nat

  datatype UserRow = UserRow(
    email: string,
    password: Option<string>,
    biography: Option<string>,
    latitude: Option<real>,
    longtitude: Option<real>,
    profileCompleted: bool,
    sexualPreferences: Option<string>,
    profilePicture: Option<string>,
    city: Option<string>,
    country: Option<string>)

  datatype PictureRow = PictureRow(userId: UserId, pictureUrl: string)

  datatype Db = Db(
    users: map<UserId, UserRow>,
    pictures: seq<PictureRow>,
    interestTags: map<string, TagId>,
    interests: set<(UserId, TagId)>)

  /** The statements of `userController.ts`, with their parameters. */
  datatype Stmt =
    | Begin
    | Commit
    | Rollback
    | UpdateUserInfo(biography: string, latitude: real, longtitude: real, preferences: string,
                     profilePicture: string, city: string, country: string, user: UserId)
    | InsertPictures(user: UserId, urls: seq<string>)
    | InsertInterests(user: UserId, tags: seq<string>)
    | SelectIdByEmail(email: string)
    | SelectPassword(lookup: Option<UserId>)
    | SetEmail(newEmail: string, user: UserId)
    | SetPassword(hash: string, user: UserId)

  /** A statement that changes rows. */
  predicate IsWrite(s: Stmt)
  {
    s.UpdateUserInfo? || s.InsertPictures? || s.InsertInterests? || s.SetEmail? || s.SetPassword?
  }

  /** `VALUES ($1, unnest($2::text[]))`: one row per URL, owned by the user, in array order. */
  function PictureRows(user: UserId, urls: seq<string>): (rows: seq<PictureRow>)
    ensures |rows| == |urls|
    ensures forall i :: 0 <= i < |urls| ==> rows[i] == PictureRow(user, urls[i])
  {
    if urls == [] then [] else [PictureRow(user, urls[0])] + PictureRows(user, urls[1..])
  }

  /** `SELECT $1, id FROM interest_tags WHERE tag = ANY($2::text[])`. */
  function TaggedWith(db: Db, user: UserId, tags: seq<string>): set<(UserId, TagId)>
  {
    set t | t in db.interestTags && t in tags :: (user, db.interestTags[t])
  }

  /** The effect of a data statement; `UPDATE ... WHERE id = $n` on a missing id changes nothing. */
  function Write(db: Db, s: Stmt): Db
  {
    match s
    case UpdateUserInfo(bio, lat, lon, pref, picture, city, country, user) =>
      if user in db.users then
        db.(users := db.users[user := db.users[user].(
          biography := Some(bio), latitude := Some(lat), longtitude := Some(lon),
          profileCompleted := true, sexualPreferences := Some(pref),
          profilePicture := Some(picture), city := Some(city), country := Some(country))])
      else db
    case InsertPictures(user, urls) => db.(pictures := db.pictures + PictureRows(user, urls))
    case InsertInterests(user, tags) => db.(interests := db.interests + TaggedWith(db, user, tags))
    case SetEmail(e, user) =>
      if user in db.users then db.(users := db.users[user := db.users[user].(email := e)]) else db
    case SetPassword(h, user) =>
      if user in db.users then db.(users := db.users[user := db.users[user].(password := Some(h))]) else db
    case _ => db
  }

  /** `SELECT id FROM users WHERE email = $1`. */
  function UsersWithEmail(db: Db, email: string): set<UserId>
  {
    set u | u in db.users && db.users[u].email == email
  }

  /** `SELECT password FROM users WHERE id = $1`; an undefined id is bound as NULL and matches nothing. */
  function PasswordRows(db: Db, lookup: Option<UserId>): (rows: seq<Option<string>>)
    ensures |rows| <= 1
    ensures |rows| == 1 <==> lookup.Some? && lookup.value in db.users
    ensures |rows| == 1 ==> rows[0] == db.users[lookup.value].password
  {
    if lookup.Some? && lookup.value in db.users then [db.users[lookup.value].password] else []
  }

  /** Changing one user's email or password touches that row's one column and nothing else. */
  lemma CredentialWritesTouchOneColumn(db: Db, s: Stmt)
    requires s.SetEmail? || s.SetPassword?
    requires s.user in db.users
    ensures var r := Write(db, s);
      && r.pictures == db.pictures && r.interests == db.interests && r.interestTags == db.interestTags
      && r.users.Keys == db.users.Keys
      && (forall u :: u in db.users && u != s.user ==> r.users[u] == db.users[u])
      && (s.SetEmail? ==> r.users[s.user] == db.users[s.user].(email := s.newEmail))
      && (s.SetPassword? ==> r.users[s.user] == db.users[s.user].(password := Some(s.hash)))
  {
  }

  // ---------------------------------------------------------------------------
  // Transactions
  // ---------------------------------------------------------------------------

  /** The visible state and, while a transaction is open, the state `BEGIN` saw. */
  datatype Session = Session(db: Db, snapshot: Option<Db>)

  /** The effect of a statement that succeeds. */
  function Exec(s: Session, st: Stmt): Session
  {
    match st
    case Begin => if s.snapshot.Some? then s else Session(s.db, Some(s.db))
    case Commit => Session(s.db, None)
    case Rollback => (if s.snapshot.Some? then Session(s.snapshot.value, None) else s)
    case _ => s.(db := Write(s.db, st))
  }

  function ExecAll(s: Session, stmts: seq<Stmt>): Session
    decreases |stmts|
  {
    if stmts == [] then s else ExecAll(Exec(s, stmts[0]), stmts[1..])
  }

  lemma {:induction false} ExecAllAppend(s: Session, a: seq<Stmt>, b: seq<Stmt>)
    ensures ExecAll(s, a + b) == ExecAll(ExecAll(s, a), b)
    decreases |a|
  {
    if a != [] {
      assert (a + b)[0] == a[0] && (a + b)[1..] == a[1..] + b;
      ExecAllAppend(Exec(s, a[0]), a[1..], b);
    } else {
      assert a + b == b;
    }
  }

  /** Data statements leave an open transaction's snapshot alone. */
  lemma {:induction false} WritesKeepSnapshot(s: Session, writes: seq<Stmt>)
    requires forall i :: 0 <= i < |writes| ==> IsWrite(writes[i])
    ensures ExecAll(s, writes).snapshot == s.snapshot
    decreases |writes|
  {
    if writes != [] {
      WritesKeepSnapshot(Exec(s, writes[0]), writes[1..]);
    }
  }

  /**
   * All or nothing: from outside a transaction, `BEGIN`, any data statements and then
   * `ROLLBACK` leave the session exactly as it was.
   */
  lemma RollbackUndoesWrites(s: Session, writes: seq<Stmt>)
    requires s.snapshot.None?
    requires forall i :: 0 <= i < |writes| ==> IsWrite(writes[i])
    ensures ExecAll(s, [Begin] + writes + [Rollback]) == s
  {
    ExecAllAppend(s, [Begin] + writes, [Rollback]);
    ExecAllAppend(s, [Begin], writes);
    WritesKeepSnapshot(Exec(s, Begin), writes);
  }

  /** `BEGIN`, data statements and `COMMIT` leave the writes' effect in place and close the transaction. */
  lemma CommitKeepsWrites(s: Session, writes: seq<Stmt>)
    requires s.snapshot.None?
    requires forall i :: 0 <= i < |writes| ==> IsWrite(writes[i])
    ensures ExecAll(s, [Begin] + writes + [Commit]) == Session(ExecAll(s, writes).db, None)
  {
    ExecAllAppend(s, [Begin] + writes, [Commit]);
    ExecAllAppend(s, [Begin], writes);
    WritesSameDb(Exec(s, Begin), s, writes);
  }

  /** Data statements compute the same rows whatever the snapshot. */
  lemma {:induction false} WritesSameDb(s: Session, t: Session, writes: seq<Stmt>)
    requires s.db == t.db
    requires forall i :: 0 <= i < |writes| ==> IsWrite(writes[i])
    ensures ExecAll(s, writes).db == ExecAll(t, writes).db
    decreases |writes|
  {
    if writes != [] {
      WritesSameDb(Exec(s, writes[0]), Exec(t, writes[0]), writes[1..]);
    }
  }

  /** The connection `query` runs on; `throws` decides which statements raise an error. */
  class Connection {
    var db: Db
    var snapshot: Option<Db>
    /** Every statement issued, in order, whether it succeeded or threw. */
    var log: seq<Stmt>
    const throws: Stmt -> bool

    ghost function State(): Session
      reads this
    {
      Session(db, snapshot)
    }

    constructor (initial: Db, faults: Stmt -> bool)
      ensures db == initial && snapshot == None && log == [] && throws == faults
    {
      db, snapshot, log := initial, None, [];
      throws := faults;
    }

    /** `await query(text, params)` for a statement returning no rows used by the caller. */
    method Execute(s: Stmt) returns (ok: bool)
      modifies this
      ensures log == old(log) + [s]
      ensures ok == !throws(s)
      ensures State() == if ok then Exec(old(State()), s) else old(State())
    {
      log := log + [s];
      ok := !throws(s);
      if ok {
        match s
        case Begin =>
          if snapshot.None? {
            snapshot := Some(db);
          }
        case Commit =>
          snapshot := None;
        case Rollback =>
          if snapshot.Some? {
            db := snapshot.value;
            snapshot := None;
          }
        case _ =>
          db := Write(db, s);
      }
    }

    /** `SELECT id FROM users WHERE email = $1`. */
    method SelectIdsByEmail(email: string) returns (ok: bool, ids: set<UserId>)
      modifies this`log
      ensures log == old(log) + [SelectIdByEmail(email)]
      ensures ok == !throws(SelectIdByEmail(email))
      ensures ok ==> ids == UsersWithEmail(db, email)
    {
      log := log + [SelectIdByEmail(email)];
      ok := !throws(SelectIdByEmail(email));
      ids := if ok then UsersWithEmail(db, email) else {};
    }

    /** `SELECT password FROM users WHERE id = $1`. */
    method SelectPasswordOf(lookup: Option<UserId>) returns (ok: bool, rows: seq<Option<string>>)
      modifies this`log
      ensures log == old(log) + [SelectPassword(lookup)]
      ensures ok == !throws(SelectPassword(lookup))
      ensures ok ==> rows == PasswordRows(db, lookup)
    {
      log := log + [SelectPassword(lookup)];
      ok := !throws(SelectPassword(lookup));
      rows := if ok then PasswordRows(db, lookup) else [];
    }
  }
}
