/**
 * The bot's persistent table `room_post`, keyed by room id, together with
 * the schema-version bootstrap and the query placeholder rewrite.
 */
module Storage {
  import opened Types

  /** The configured database backend. */
  datatype DbType = Sqlite | Postgres

  /** One row of `room_post`: the last posted challenge and when it was posted. */
  datatype Row = Row(lastChallengeId: Option<string>, postedTimestamp: Option<int>)

  /** What the database held when the bot started. */
  datatype Schema =
    | NoSchema                                              // `SELECT version` fails
    | Existing(version: int, roomPost: map<string, Row>)

  /** The migration level this code brings a database to (`latest_migration_version`). */
  const LatestMigrationVersion: int := 0

  /** Both columns are NULL, or both are set. */
  predicate Consistent(row: Row) {
    row.lastChallengeId.None? <==> row.postedTimestamp.None?
  }

  predicate AllConsistent(rooms: map<string, Row>) {
    forall k :: k in rooms ==> Consistent(rooms[k])
  }

  // ---------------------------------------------------------------------
  // The `?` -> `%s` rewrite of `_execute`
  // ---------------------------------------------------------------------

  /** Number of occurrences of `c` in `s`. */
  function Occurrences(s: string, c: char): nat {
    if s == [] then 0 else (if s[0] == c then 1 else 0) + Occurrences(s[1..], c)
  }

  /** Python's `query.replace("?", "%s")`. */
  function ReplacePlaceholders(q: string): (r: string)
    ensures '?' !in r
    ensures |r| == |q| + Occurrences(q, '?')
  {
    if q == [] then []
    else (if q[0] == '?' then "%s" else [q[0]]) + ReplacePlaceholders(q[1..])
  }

  /** The rewrite substitutes piecewise: it distributes over concatenation. */
  lemma {:induction false} ReplaceDistributes(a: string, b: string)
    ensures ReplacePlaceholders(a + b) == ReplacePlaceholders(a) + ReplacePlaceholders(b)
  {
    if a != [] {
      var head := if a[0] == '?' then "%s" else [a[0]];
      assert (a + b)[0] == a[0] && (a + b)[1..] == a[1..] + b;
      ReplaceDistributes(a[1..], b);
      calc {
        ReplacePlaceholders(a + b);
        head + ReplacePlaceholders(a[1..] + b);
        head + (ReplacePlaceholders(a[1..]) + ReplacePlaceholders(b));
        (head + ReplacePlaceholders(a[1..])) + ReplacePlaceholders(b);
      }
    } else {
      assert a + b == b;
    }
  }

  /** A query without placeholders is sent as it is. */
  lemma {:induction false} ReplaceWithoutPlaceholders(q: string)
    requires '?' !in q
    ensures ReplacePlaceholders(q) == q
  {
    if q != [] {
      assert q == [q[0]] + q[1..];
      ReplaceWithoutPlaceholders(q[1..]);
    }
  }

  /** The first `?` of a query becomes `%s`, with the text before it kept and the rest rewritten. */
  lemma ReplaceAtPlaceholder(a: string, b: string)
    requires '?' !in a
    ensures ReplacePlaceholders(a + "?" + b) == a + "%s" + ReplacePlaceholders(b)
  {
    ReplaceDistributes(a, "?" + b);
    ReplaceWithoutPlaceholders(a);
    assert ("?" + b)[0] == '?' && ("?" + b)[1..] == b;
    assert ReplacePlaceholders("?" + b) == "%s" + ReplacePlaceholders(b);
    assert a + "?" + b == a + ("?" + b);
  }

  /** Rewriting an already rewritten query changes nothing. */
  lemma ReplaceIdempotent(q: string)
    ensures ReplacePlaceholders(ReplacePlaceholders(q)) == ReplacePlaceholders(q)
  {
    ReplaceWithoutPlaceholders(ReplacePlaceholders(q));
  }

  /** The query text `_execute` hands to the cursor. */
  function ExecutedQuery(db: DbType, q: string): (r: string)
    ensures db == Sqlite ==> r == q
    ensures db == Postgres ==> r == ReplacePlaceholders(q)
    ensures db == Postgres ==> '?' !in r && |r| == |q| + Occurrences(q, '?')
  {
    if db == Postgres then ReplacePlaceholders(q) else q
  }

  // ---------------------------------------------------------------------
  // Schema-version bootstrap
  // ---------------------------------------------------------------------

  /** `migration_level` once the try/except of `__init__` is done. */
  function StartupMigrationLevel(s: Schema): (level: int)
    ensures s.NoSchema? ==> level == 0
    ensures s.Existing? ==> level == s.version
  {
    match s
    case NoSchema => 0
    case Existing(v, _) => v
  }

  /** The `finally` test that decides whether migrations run. */
  predicate MigrationsPending(level: int)
    ensures MigrationsPending(level) <==> level < 0
  {
    level < LatestMigrationVersion
  }

  /** A freshly created database, or any stored version that is not negative, never migrates. */
  lemma NoMigrationsFromCurrentVersions(s: Schema)
    requires s.NoSchema? || s.version >= 0
    ensures !MigrationsPending(StartupMigrationLevel(s))
  {
  }

  // ---------------------------------------------------------------------
  // The table as a map, and its updates
  // ---------------------------------------------------------------------

  /** The row `upsert_challenge_for_room` writes; the clock is read only when a challenge is given. */
  function RowFor(challenge: Option<Challenge>, clock: int): (row: Row)
    ensures Consistent(row)
    ensures row.lastChallengeId.Some? <==> challenge.Some?
    ensures challenge.Some? ==> row.lastChallengeId.value == challenge.value.id && row.postedTimestamp.value == clock
  {
    match challenge
    case Some(c) => Row(Some(c.id), Some(clock))
    case None => Row(None, None)
  }

  /** The table after `upsert_challenge_for_room(roomId, challenge)` at time `clock`. */
  function Upserted(rooms: map<string, Row>, roomId: string, challenge: Option<Challenge>, clock: int)
    : (r: map<string, Row>)
    ensures r.Keys == rooms.Keys + {roomId}
    ensures r[roomId].lastChallengeId == (if challenge.Some? then Some(challenge.value.id) else None)
    ensures r[roomId].postedTimestamp == (if challenge.Some? then Some(clock) else None)
    ensures forall k :: k in rooms && k != roomId ==> r[k] == rooms[k]
  {
    rooms[roomId := RowFor(challenge, clock)]
  }

  /** The table after `delete_room_entry(roomId)`. */
  function Deleted(rooms: map<string, Row>, roomId: string): (r: map<string, Row>)
    ensures r.Keys == rooms.Keys - {roomId}
    ensures forall k :: k in r ==> r[k] == rooms[k]
    ensures roomId !in rooms ==> r == rooms
  {
    rooms - {roomId}
  }

  /** Every upsert leaves the two columns both NULL or both set, on every row. */
  lemma UpsertKeepsConsistent(rooms: map<string, Row>, roomId: string, challenge: Option<Challenge>, clock: int)
    requires AllConsistent(rooms)
    ensures AllConsistent(Upserted(rooms, roomId, challenge, clock))
  {
  }

  /** An upsert overwrites whatever the row held: the last upsert wins. */
  lemma UpsertOverwrites(rooms: map<string, Row>, roomId: string,
                         first: Option<Challenge>, c1: int, second: Option<Challenge>, c2: int)
    ensures Upserted(Upserted(rooms, roomId, first, c1), roomId, second, c2)
         == Upserted(rooms, roomId, second, c2)
  {
  }

  /** Deleting a row that was just upserted forgets the upsert entirely. */
  lemma DeleteUndoesUpsert(rooms: map<string, Row>, roomId: string, challenge: Option<Challenge>, clock: int)
    ensures Deleted(Upserted(rooms, roomId, challenge, clock), roomId) == Deleted(rooms, roomId)
  {
  }

  /** The `Storage` object: its backend, the stored schema version and the `room_post` table. */
  class Store {
    const dbType: DbType
    var version: int
    var rooms: map<string, Row>

    /**
     * `__init__`: read the stored version; when that fails, create the tables
     * with version 0; migrate when the level is below the latest one.
     */
    constructor (dbType: DbType, existing: Schema)
      ensures this.dbType == dbType
      ensures existing.NoSchema? ==> version == 0 && rooms == map[]
      ensures existing.Existing? ==> version == existing.version && rooms == existing.roomPost
    {
      this.dbType := dbType;
      match existing {
        case NoSchema =>
          // `_initial_db_setup`: version 0 and an empty `room_post`
          version := 0;
          rooms := map[];
        case Existing(v, rows) =>
          version := v;
          rooms := rows;
      }
      new;
      var migrationLevel := StartupMigrationLevel(existing);
      if MigrationsPending(migrationLevel) {
        RunDbMigrations(migrationLevel);
      }
    }

    /** `_run_db_migrations`: no migration exists beyond version 0, so nothing is changed. */
    method RunDbMigrations(currentVersion: int)
      modifies this
      ensures version == old(version) && rooms == old(rooms)
    {
    }

    /** `get_rooms`: a snapshot of every row, keyed by its unique room id. */
    method GetRooms() returns (snapshot: map<string, Row>)
      ensures snapshot.Keys == rooms.Keys
      ensures forall k :: k in snapshot ==> snapshot[k] == rooms[k]
    {
      snapshot := map k | k in rooms :: rooms[k];
    }

    /** `upsert_challenge_for_room`, with the store's clock reading passed as `clock`. */
    method UpsertChallengeForRoom(roomId: string, challenge: Option<Challenge>, clock: int)
      modifies this
      ensures rooms == Upserted(old(rooms), roomId, challenge, clock)
      ensures version == old(version)
      ensures old(AllConsistent(rooms)) ==> AllConsistent(rooms)
    {
      if AllConsistent(rooms) {
        UpsertKeepsConsistent(rooms, roomId, challenge, clock);
      }
      rooms := rooms[roomId := RowFor(challenge, clock)];
    }

    /** `delete_room_entry`. */
    method DeleteRoomEntry(roomId: string)
      modifies this
      ensures rooms == Deleted(old(rooms), roomId)
      ensures version == old(version)
    {
      rooms := rooms - {roomId};
    }
  }
}
