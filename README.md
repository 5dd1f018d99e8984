# Drawing challenge bot: posting rule, room table, callbacks and commands

A Dafny model of the core of a Matrix bot that posts weekly drawing
challenges to every room it has joined. The model covers:

- the **room table** `room_post` (`Storage` module): a map from room id to
  the last posted challenge id and the time of that post, with upsert,
  delete and snapshot read, the schema-version bootstrap of the store's
  constructor, and the `?` to `%s` placeholder rewrite applied to queries
  for PostgreSQL;
- the **posting rule** (`Poster` module): one pass over a snapshot of the
  table that skips rooms posted to less than a week ago, posts to every
  other room the first challenge created after the room's last post, and
  records that post in the table whether or not the send raised;
- the **callbacks** (`BotCallbacks` module): the message filter, the
  invite handler with its duplicate-invite set and its three join
  attempts, and the kick/ban handler that deletes a room's row;
- the **command parser** (`BotCommands` module): the tokenising of a
  message the way Python's `str.split()` does it, and the reply chosen for
  the `help` command.

Files: `types.dfy` (shared `Option` and `Challenge`), `storage.dfy`,
`challenge_poster.dfy`, `callbacks.dfy`, `bot_commands.dfy`.

Stateful objects are classes: `Storage.Store` holds the table in a `map`
field that its methods reassign, `Poster.ChallengePoster` and
`BotCallbacks.Callbacks` hold a reference to the store, and `Callbacks`
keeps the joined-room set as a `set` field. Each method's postcondition gives
the new table as a function of the old one (`Upserted`, `Deleted`,
`Reconciled`), and the properties of the posting rule are lemmas about
those functions. The pass over the rooms is a `while` loop over the
snapshot's keys, and the scan over the challenges is an inner loop with
`continue` and `break`, as in the source.

Time is an integer number of epoch seconds. `now` is the clock reading the
pass takes at its start. `postedAt` is the reading the store takes when it
records a post. The source reads the clock again inside the store, so that
reading is never earlier than `now`. Both readings come from
`datetime.utcnow().timestamp()`, which Python interprets as local time, so
on a host whose zone is not UTC they are offset from true epoch seconds by
the host's UTC offset, while `created_utc` is a true epoch value. Both clocks
are free parameters of the model, so this offset is not represented.

## How the newness test behaves

The test that decides whether a challenge is new for a room compares the
challenge's `created_utc` with the room's local `posted_timestamp`, the
time the bot last posted there (challenge_poster.py:66). No column records
when the last posted challenge itself was created, and no migration adds
one. The model follows the code. One consequence is proved in
`Poster.BacklogAfterFirstPostIsSkipped`. Take a room joined at time 1000
and challenges created at 100 and 200. The room gets the first challenge,
and a week later it does not get the second, because 200 is not later than
1000. After the first post, a room only receives challenges created after
its most recent post.

A timestamp of 0 counts as "never posted" in the newness test, because
Python treats 0 as false there. The week gate tests `is not None`, so it
treats 0 as a real post time. Both rules are modelled (`Poster.Truthy`,
`Poster.PostedWithinWeek`).

## Model

| member | source | states |
|---|---|---|
| `Storage.ReplacePlaceholders` | drawing_challenge_bot/storage.py:69 | the rewritten query contains no `?` and is longer by exactly one character per `?` of the input |
| `Storage.ReplaceAtPlaceholder` | drawing_challenge_bot/storage.py:69 | a `?` becomes `%s` where it stands: the text before the first `?` is kept and the text after it is rewritten in turn |
| `Storage.ReplaceDistributes` | drawing_challenge_bot/storage.py:69 | the rewrite of a concatenation is the concatenation of the rewrites, so each `?` is replaced where it stands and every other character is kept in order |
| `Storage.ReplaceWithoutPlaceholders` | drawing_challenge_bot/storage.py:69 | a query without `?` is passed on unchanged |
| `Storage.ReplaceIdempotent` | drawing_challenge_bot/storage.py:69 | rewriting an already rewritten query changes nothing |
| `Storage.ExecutedQuery` | drawing_challenge_bot/storage.py:66-71 | for sqlite the query is passed through unchanged; for postgres it is the `?`-to-`%s` rewrite of the query, so it has no `?` and grows by one character per `?` |
| `Storage.StartupMigrationLevel` | drawing_challenge_bot/storage.py:37-43 | the migration level is 0 when reading the stored version fails, and exactly the stored version otherwise, so a negative stored version leaves migrations pending |
| `Storage.MigrationsPending` | drawing_challenge_bot/storage.py:45 | with `latest_migration_version` equal to 0, migrations are pending exactly for a negative level |
| `Storage.NoMigrationsFromCurrentVersions` | drawing_challenge_bot/storage.py:9-46 | with `latest_migration_version` equal to 0, a fresh database or any stored version that is not negative never runs migrations |
| `Storage.RowFor` | drawing_challenge_bot/storage.py:152-153 | the row written has a challenge id exactly when a challenge is given, then with its id and the clock reading; it is always consistent |
| `Storage.Upserted` | drawing_challenge_bot/storage.py:141-174 | the upsert leaves `room_id` present whether or not the row existed, with (`id`, clock) for a challenge and (None, None) otherwise, which resets an existing row; every other row and key is unchanged |
| `Storage.Deleted` | drawing_challenge_bot/storage.py:176-183 | the row is removed if present, the table is unchanged if not, and every other row is kept |
| `Storage.UpsertKeepsConsistent` | drawing_challenge_bot/storage.py:152-153 | after any upsert every row has both `last_challenge_id` and `posted_timestamp` set, or neither, provided this held before |
| `Storage.UpsertOverwrites` | drawing_challenge_bot/storage.py:157-164 | on a conflict the second upsert replaces the first: the last upsert for a room wins |
| `Storage.DeleteUndoesUpsert` | drawing_challenge_bot/storage.py:141-183 | deleting a room right after upserting it leaves the table as deleting it alone would |
| `Storage.Store.constructor` | drawing_challenge_bot/storage.py:15-48 | a store without a schema starts at version 0 with an empty `room_post`; an existing one keeps its version and rows |
| `Storage.Store.RunDbMigrations` | drawing_challenge_bot/storage.py:116-124 | migrations leave the version and the table unchanged, since no migration exists |
| `Storage.Store.GetRooms` | drawing_challenge_bot/storage.py:126-139 | the snapshot holds exactly the stored rows, keyed by their unique room ids |
| `Storage.Store.UpsertChallengeForRoom` | drawing_challenge_bot/storage.py:141-174 | the new table is the old one with the room's row upserted, and row consistency is preserved |
| `Storage.Store.DeleteRoomEntry` | drawing_challenge_bot/storage.py:176-183 | the new table is the old one without the room's row |
| `Poster.Truthy` | drawing_challenge_bot/challenge_poster.py:66 | a post time is truthy exactly when it is neither None nor 0 |
| `Poster.PostedWithinWeek` | drawing_challenge_bot/challenge_poster.py:54-57 | the gate is open exactly when the room was never posted to or at least 604800 seconds have passed since its post time |
| `Poster.AlreadyPosted` | drawing_challenge_bot/challenge_poster.py:66 | a challenge counts as already posted exactly when the post time is truthy (neither None nor 0) and the challenge was created no later than it; with post time None or 0, or created later, it does not |
| `Poster.FirstNewChallenge` | drawing_challenge_bot/challenge_poster.py:65-74 | the chosen index is the first in list order whose challenge is not "already posted"; every earlier one is; none is chosen exactly when all are already posted |
| `Poster.ChallengeToPost` | drawing_challenge_bot/challenge_poster.py:52-74 | a room inside its week gets nothing, an empty list gives nothing, a chosen challenge is in the list and not already posted, and when the gate is open but nothing is chosen every challenge is already posted |
| `Poster.RowAfterPass` | drawing_challenge_bot/challenge_poster.py:52-97 | a room with no post keeps its row; a posted room's row becomes (challenge id, post time); a consistent row stays consistent |
| `Poster.Reconciled` | drawing_challenge_bot/challenge_poster.py:46-74 | a pass keeps exactly the rooms of its snapshot |
| `Poster.GateClosedKeepsRow` | drawing_challenge_bot/challenge_poster.py:52-59 | a room with `posted_timestamp + 604800 > now` gets no post and its row is unchanged |
| `Poster.PostIsFirstNewer` | drawing_challenge_bot/challenge_poster.py:65-71 | a posted challenge passed the gate, was created after the room's last post when that time is truthy, and every earlier challenge in the list was created no later than it |
| `Poster.NeverPostedGetsFirst` | drawing_challenge_bot/challenge_poster.py:54-66 | a room whose post time is None or 0 and that passes the gate gets the first challenge of a non-empty list |
| `Poster.PostedIffNewerExists` | drawing_challenge_bot/challenge_poster.py:54-74 | a room is posted to if and only if its gate is open and some challenge is not already posted |
| `Poster.SortedNewChallengesFormSuffix` | drawing_challenge_bot/challenge_poster.py:61-71 | on a list sorted by `created_utc`, the challenges new to a room are exactly those from the posted one to the end of the list |
| `Poster.EmptyListChangesNothing` | drawing_challenge_bot/challenge_poster.py:65 | an empty challenge list posts to no room and leaves the table unchanged |
| `Poster.PostRecordsRow` | drawing_challenge_bot/challenge_poster.py:89-97 | a posted room's row becomes (challenge id, post time); every room not posted to keeps its row |
| `Poster.RerunIsIdempotent` | drawing_challenge_bot/challenge_poster.py:54-59 | re-running the pass with the same `now` posts nothing and changes nothing, when the first pass's stamp is within a week of `now` |
| `Poster.PostAdvancesTimestamp` | drawing_challenge_bot/challenge_poster.py:54-97 | a post, stamped no earlier than `now`, moves the room's post time forward by at least a week and leaves the row consistent |
| `Poster.ReconcileKeepsConsistent` | drawing_challenge_bot/challenge_poster.py:97 | a pass keeps every row with both columns set or both unset |
| `Poster.BacklogAfterFirstPostIsSkipped` | drawing_challenge_bot/challenge_poster.py:66 | a room joined at 1000 with challenges created at 100 and 200 gets the first, and a week later does not get the second |
| `Poster.ChallengePoster.constructor` | drawing_challenge_bot/challenge_poster.py:23-31 | the poster uses the store it is given |
| `Poster.ChallengePoster.PostChallenge` | drawing_challenge_bot/challenge_poster.py:76-97 | the room's row is upserted with the challenge whether or not the send raised |
| `Poster.ChallengePoster.UpdateRooms` | drawing_challenge_bot/challenge_poster.py:39-74 | decided from the snapshot taken at the start: the new table is `Reconciled` of the old one; at most one post per room; the rooms posted to are exactly those whose gate is open and that have a new challenge; each post carries the selected challenge |
| `BotCommands.Split` | drawing_challenge_bot/bot_commands.py:38-40 | every token is non-empty and contains no whitespace |
| `BotCommands.SplitWord` | drawing_challenge_bot/bot_commands.py:38-40 | a single word splits to itself |
| `BotCommands.SplitWordThenSpaces` | drawing_challenge_bot/bot_commands.py:38-40 | a word followed by a whitespace run of any length and kind is one token, separated from the tokens of the rest |
| `BotCommands.SplitSpacedRoundTrip` | drawing_challenge_bot/bot_commands.py:38-40 | words separated by any non-empty whitespace runs, with optional trailing whitespace, split back into exactly those words in order |
| `BotCommands.SplitSkipsLeadingSpaces` | drawing_challenge_bot/bot_commands.py:38-40 | leading whitespace changes no token |
| `BotCommands.SplitJoinRoundTrip` | drawing_challenge_bot/bot_commands.py:38-40 | splitting words joined by single spaces gives back exactly those words, in order |
| `BotCommands.DropPrefix` | drawing_challenge_bot/bot_commands.py:35-37 | `len(prefix)` characters are dropped, giving the empty string when the message is shorter |
| `BotCommands.Parse` | drawing_challenge_bot/bot_commands.py:35-43 | the command is the first token after the prefix and the arguments are the remaining tokens in order; no token means `pop(0)` raises |
| `BotCommands.ParseRoundTrip` | drawing_challenge_bot/bot_commands.py:35-43 | the prefix, any leading whitespace and words separated by any whitespace runs parse back to the first word as the command and the rest as its arguments |
| `BotCommands.BlankCommandHasNoTokens` | drawing_challenge_bot/bot_commands.py:41-43 | a message that is only the prefix and whitespace yields no command |
| `BotCommands.HelpText` | drawing_challenge_bot/bot_commands.py:50-67 | the intro text is the reply exactly when there is no argument, the description exactly when the first argument is `commands`, and "Unknown help topic!" exactly when it is anything else |
| `BotCommands.Process` | drawing_challenge_bot/bot_commands.py:45-48 | there is a reply exactly when the command is `help`, and it is the help text for the arguments |
| `BotCommands.ReplySelection` | drawing_challenge_bot/bot_commands.py:45-67 | only `help` has a reply; with no argument it is the intro text, with `commands` the description, with anything else "Unknown help topic!"; arguments beyond the first do not matter |
| `BotCommands.HelpCommandsMessage` | drawing_challenge_bot/bot_commands.py:35-67 | a message `<prefix>help commands ...` parses and is answered with the description, whatever whitespace separates the words and whatever words follow |
| `BotCallbacks.FirstSuccess` | drawing_challenge_bot/callbacks.py:88-98 | the index found is the first successful join among the first three answers; none is found exactly when all of them fail |
| `BotCallbacks.JoinCallsMade` | drawing_challenge_bot/callbacks.py:88-101 | between one and three join calls are made; fewer than three only when the last one succeeded; every call before the last failed |
| `BotCallbacks.StartsWith` | drawing_challenge_bot/callbacks.py:52 | the message starts with the prefix exactly when it is the prefix followed by the rest of the message |
| `BotCallbacks.FailureReply` | drawing_challenge_bot/callbacks.py:62-72 | a `CommandError` is answered with `"Error: " + msg`, and only it starts with that text; any other exception is answered with "An unknown error occurred: " and its description |
| `BotCallbacks.TextsSent` | drawing_challenge_bot/callbacks.py:60-72 | no reply sends nothing; a reply alone is sent when its send does not raise; when it raises, exactly one error report follows it |
| `BotCallbacks.Callbacks.constructor` | drawing_challenge_bot/callbacks.py:23-33 | the joined-room set starts empty |
| `BotCallbacks.Callbacks.Message` | drawing_challenge_bot/callbacks.py:35-75 | messages from the bot itself and messages without the prefix are ignored, and nothing else is; a command with no token raises before the `try`; otherwise the texts whose send is attempted are those of the command's reply |
| `BotCallbacks.Callbacks.Invite` | drawing_challenge_bot/callbacks.py:77-105 | a repeated invite removes the room from the set with no join call and no store change; otherwise the join is tried up to three times until the first success; on success the room is added to the set and its row upserted as (None, None); after three failures nothing changes |
| `BotCallbacks.Callbacks.MemberEvent` | drawing_challenge_bot/callbacks.py:130-138 | a `kick` or `ban` of any member of the room, not only of the bot, deletes the room's row; any other membership leaves the table unchanged |
| `BotCallbacks.Callbacks.KickOrBan` | drawing_challenge_bot/callbacks.py:140-142 | the room's row is deleted |
| `BotCallbacks.InviteReportedTwice` | drawing_challenge_bot/callbacks.py:80-105 | an invite reported twice joins and tracks the room once and leaves the joined-room set as it was; if the first report could not join, the second is handled as a fresh invite |

## Left out

- Poster.ChallengePoster.UpdateRooms: store writes never fail in the model. In the source the upsert at the end of `_post_challenge` is outside its `try`, so a failing write ends the pass and the rest of the snapshot's rooms are not visited; the model always handles every room.
- BotCallbacks.Callbacks.Invite: store writes never fail in the model. In the source the room is put in `joined_rooms` before the upsert, so a failing upsert leaves the room marked as joined without a row; the model always writes the row.
- `created_utc` is a float in the submissions the scraper returns; `Types.Challenge` keeps it as an integer number of seconds.
- Sending and formatting messages (`send_text_to_room`, the challenge text, the greeting, `client.sync()`): the send outcome is a parameter (`sendRaises`, `failingRooms`, `sendError`), and the texts are not built.
- The join call itself: its answers are the input `joinResults`, one per possible attempt, so `Invite` requires three of them; the error log text is not modelled.
- Poster.ChallengePoster.UpdateRooms: stamps every post of one pass with the same `postedAt`, whereas the source reads the clock once per upsert; the clock readings are integers, not `datetime` floats.
- Poster.ChallengePoster.UpdateRooms: visits the rooms in an order Dafny chooses instead of the database's row order; the resulting table does not depend on the order.
- The scraper: the wiki fetch, the regular expression and the lazily loaded submissions are network calls. Its sort by `created_utc` appears as `Poster.SortedByCreation`, which the lemmas about sorted lists assume.
- The scheduler, login and reconnect loop of main.py are scheduling and I/O; concurrency between callbacks and a pass is not modelled (each method runs on its own).
- SQL text, drivers and cursors: the table is a map. `_execute` appears only as the query rewrite `ExecutedQuery`.
- Storage.Store.constructor: a `migration_version` table with no row, and a `room_post` table left over without a version table, both make the source raise; the model treats every database as either without a schema or with a version and rows.
- `ChallengePoster.scrape_and_post` only chains the scraper and `_update_rooms`; `Command._unknown_command` is never called.
- errors.py: only the `msg` of `CommandError` matters, and it appears in `BotCallbacks.FailureReply`. No command raises `CommandError` in this code.
- BotCallbacks.TextsSent: if sending the error report itself raises, the exception leaves the callback; this is not modelled.
