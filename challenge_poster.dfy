/**
 * The weekly posting rule of `ChallengePoster`: one pass over a snapshot of
 * `room_post` that posts at most one challenge per room and records it.
 */
module Poster {
  import opened Types
  import opened Storage

  /** `ONE_WEEK_IN_SECONDS`. */
  const OneWeekInSeconds: int := 60 * 60 * 24 * 7

  /** Python truthiness of an optional timestamp: `None` and `0` are both false. */
  predicate Truthy(t: Option<int>)
    ensures Truthy(t) <==> t != None && t != Some(0)
  {
    t.Some? && t.value != 0
  }

  /** The skip test of the room loop: the room was posted to less than a week before `now`. */
  predicate PostedWithinWeek(lastPost: Option<int>, now: int)
    ensures !PostedWithinWeek(lastPost, now) <==> lastPost.None? || now - lastPost.value >= OneWeekInSeconds
  {
    lastPost.Some? && lastPost.value + OneWeekInSeconds > now
  }

  /** The skip test of the challenge loop: the challenge is no newer than the last post. */
  predicate AlreadyPosted(lastPost: Option<int>, c: Challenge)
    ensures AlreadyPosted(lastPost, c) ==> lastPost.Some? && c.createdUtc <= lastPost.value
    ensures lastPost == None || lastPost == Some(0) ==> !AlreadyPosted(lastPost, c)
    ensures lastPost.Some? && c.createdUtc > lastPost.value ==> !AlreadyPosted(lastPost, c)
    ensures Truthy(lastPost) && c.createdUtc <= lastPost.value ==> AlreadyPosted(lastPost, c)
  {
    Truthy(lastPost) && c.createdUtc <= lastPost.value
  }

  /** Ascending by `created_utc`, as the scraper sorts the list. */
  predicate SortedByCreation(cs: seq<Challenge>) {
    forall i, j :: 0 <= i < j < |cs| ==> cs[i].createdUtc <= cs[j].createdUtc
  }

  /** Index of the first challenge the room has not had yet, in list order. */
  function FirstNewChallenge(cs: seq<Challenge>, lastPost: Option<int>): (r: Option<nat>)
    ensures r.Some? ==> r.value < |cs| && !AlreadyPosted(lastPost, cs[r.value])
    ensures r.Some? ==> forall k :: 0 <= k < r.value ==> AlreadyPosted(lastPost, cs[k])
    ensures r.None? <==> forall k :: 0 <= k < |cs| ==> AlreadyPosted(lastPost, cs[k])
  {
    if cs == [] then None
    else if !AlreadyPosted(lastPost, cs[0]) then Some(0)
    else match FirstNewChallenge(cs[1..], lastPost)
      case None => None
      case Some(i) => Some(i + 1)
  }

  /** What one pass posts to a room whose row is `row`, if anything. */
  function ChallengeToPost(row: Row, cs: seq<Challenge>, now: int): (r: Option<Challenge>)
    ensures PostedWithinWeek(row.postedTimestamp, now) ==> r == None
    ensures cs == [] ==> r == None
    ensures r.Some? ==> exists i :: 0 <= i < |cs| && cs[i] == r.value && !AlreadyPosted(row.postedTimestamp, cs[i])
    ensures r.None? && !PostedWithinWeek(row.postedTimestamp, now) ==>
              forall k :: 0 <= k < |cs| ==> AlreadyPosted(row.postedTimestamp, cs[k])
  {
    if PostedWithinWeek(row.postedTimestamp, now) then None
    else match FirstNewChallenge(cs, row.postedTimestamp)
      case None => None
      case Some(i) => Some(cs[i])
  }

  /** The row of a room after one pass whose posts are stamped `postedAt`. */
  function RowAfterPass(row: Row, cs: seq<Challenge>, now: int, postedAt: int): (r: Row)
    ensures ChallengeToPost(row, cs, now).None? ==> r == row
    ensures ChallengeToPost(row, cs, now).Some? ==>
              r == Row(Some(ChallengeToPost(row, cs, now).value.id), Some(postedAt))
    ensures Consistent(row) ==> Consistent(r)
  {
    match ChallengeToPost(row, cs, now)
    case None => row
    case Some(c) => RowFor(Some(c), postedAt)
  }

  /** The table after one pass over a snapshot `rooms`. */
  function Reconciled(rooms: map<string, Row>, cs: seq<Challenge>, now: int, postedAt: int)
    : (r: map<string, Row>)
    ensures r.Keys == rooms.Keys
  {
    map k | k in rooms :: RowAfterPass(rooms[k], cs, now, postedAt)
  }

  /** The table once the rooms in `done` have been handled and the others not yet. */
  function PartlyReconciled(rooms: map<string, Row>, cs: seq<Challenge>, now: int, postedAt: int,
                            done: set<string>): (r: map<string, Row>)
    ensures r.Keys == rooms.Keys
  {
    map k | k in rooms :: if k in done then RowAfterPass(rooms[k], cs, now, postedAt) else rooms[k]
  }

  /** The rooms the pass posts to. */
  function RoomsToPost(rooms: map<string, Row>, cs: seq<Challenge>, now: int): set<string> {
    set k | k in rooms && ChallengeToPost(rooms[k], cs, now).Some?
  }

  /** One send made by the pass: the room, the challenge, and whether the send went through. */
  datatype Post = Post(roomId: string, challenge: Challenge, delivered: bool)

  function PostedRooms(posts: seq<Post>): set<string> {
    set i | 0 <= i < |posts| :: posts[i].roomId
  }

  lemma PostedRoomsAppend(posts: seq<Post>, p: Post)
    ensures PostedRooms(posts + [p]) == PostedRooms(posts) + {p.roomId}
  {
    assert (posts + [p])[|posts|] == p;
    assert forall i :: 0 <= i < |posts| ==> (posts + [p])[i] == posts[i];
  }

  predicate OnePostPerRoom(posts: seq<Post>) {
    forall i, j :: 0 <= i < j < |posts| ==> posts[i].roomId != posts[j].roomId
  }

  // ---------------------------------------------------------------------
  // Properties of the posting rule
  // ---------------------------------------------------------------------

  /** A room posted to less than a week ago gets no post and keeps its row. */
  lemma GateClosedKeepsRow(rooms: map<string, Row>, cs: seq<Challenge>, now: int, postedAt: int, k: string)
    requires k in rooms && PostedWithinWeek(rooms[k].postedTimestamp, now)
    ensures k !in RoomsToPost(rooms, cs, now)
    ensures Reconciled(rooms, cs, now, postedAt)[k] == rooms[k]
  {
  }

  /**
   * A posted challenge is the first in list order that is newer than the
   * room's last post time; every earlier one is no newer than it.
   */
  lemma PostIsFirstNewer(row: Row, cs: seq<Challenge>, now: int)
    requires ChallengeToPost(row, cs, now).Some?
    ensures !PostedWithinWeek(row.postedTimestamp, now)
    ensures exists i :: 0 <= i < |cs| && cs[i] == ChallengeToPost(row, cs, now).value
                     && (Truthy(row.postedTimestamp) ==> cs[i].createdUtc > row.postedTimestamp.value)
                     && (forall k :: 0 <= k < i ==> AlreadyPosted(row.postedTimestamp, cs[k]))
  {
    var i := FirstNewChallenge(cs, row.postedTimestamp).value;
    assert cs[i] == ChallengeToPost(row, cs, now).value;
  }

  /** A room with no post time, or post time 0, that passes the gate gets the first challenge. */
  lemma NeverPostedGetsFirst(row: Row, cs: seq<Challenge>, now: int)
    requires !Truthy(row.postedTimestamp) && !PostedWithinWeek(row.postedTimestamp, now)
    requires cs != []
    ensures ChallengeToPost(row, cs, now) == Some(cs[0])
  {
  }

  /** A room is posted to exactly when its gate is open and some challenge is newer than its last post. */
  lemma PostedIffNewerExists(row: Row, cs: seq<Challenge>, now: int)
    ensures ChallengeToPost(row, cs, now).Some?
        <==> !PostedWithinWeek(row.postedTimestamp, now)
             && exists i :: 0 <= i < |cs| && !AlreadyPosted(row.postedTimestamp, cs[i])
  {
  }

  /** On a sorted list the challenges that are new to a room start at the posted one and run to the end. */
  lemma SortedNewChallengesFormSuffix(row: Row, cs: seq<Challenge>, now: int)
    requires SortedByCreation(cs)
    requires ChallengeToPost(row, cs, now).Some?
    ensures forall i :: 0 <= i < |cs| ==>
              (!AlreadyPosted(row.postedTimestamp, cs[i])
               <==> cs[i].createdUtc >= ChallengeToPost(row, cs, now).value.createdUtc
                    && i >= FirstNewChallenge(cs, row.postedTimestamp).value)
  {
    var j := FirstNewChallenge(cs, row.postedTimestamp).value;
    forall i | 0 <= i < |cs|
      ensures !AlreadyPosted(row.postedTimestamp, cs[i])
              <==> cs[i].createdUtc >= cs[j].createdUtc && i >= j
    {
      if i > j {
        assert cs[j].createdUtc <= cs[i].createdUtc;
      }
    }
  }

  /** An empty challenge list posts nothing and changes no row. */
  lemma EmptyListChangesNothing(rooms: map<string, Row>, now: int, postedAt: int)
    ensures RoomsToPost(rooms, [], now) == {}
    ensures Reconciled(rooms, [], now, postedAt) == rooms
  {
  }

  /** A posted room's row becomes the challenge id and the post time; a row left alone is kept. */
  lemma PostRecordsRow(rooms: map<string, Row>, cs: seq<Challenge>, now: int, postedAt: int, k: string)
    requires k in rooms
    ensures k in RoomsToPost(rooms, cs, now) ==>
              Reconciled(rooms, cs, now, postedAt)[k]
                == Row(Some(ChallengeToPost(rooms[k], cs, now).value.id), Some(postedAt))
    ensures k !in RoomsToPost(rooms, cs, now) ==> Reconciled(rooms, cs, now, postedAt)[k] == rooms[k]
  {
  }

  /**
   * Re-running the pass with the same `now` right after it posts nothing more
   * and changes nothing, provided the posts were stamped no earlier than
   * a week before `now` (the store's clock is never behind `now`).
   */
  lemma RerunIsIdempotent(rooms: map<string, Row>, cs: seq<Challenge>, now: int,
                                             postedAt: int, laterAt: int)
    requires postedAt + OneWeekInSeconds > now
    ensures RoomsToPost(Reconciled(rooms, cs, now, postedAt), cs, now) == {}
    ensures Reconciled(Reconciled(rooms, cs, now, postedAt), cs, now, laterAt)
         == Reconciled(rooms, cs, now, postedAt)
  {
    var once := Reconciled(rooms, cs, now, postedAt);
    forall k | k in once
      ensures ChallengeToPost(once[k], cs, now) == None
    {
      if ChallengeToPost(rooms[k], cs, now).Some? {
        assert once[k].postedTimestamp == Some(postedAt);
      } else {
        assert once[k] == rooms[k];
      }
    }
    assert forall k :: k in once ==> RowAfterPass(once[k], cs, now, laterAt) == once[k];
  }

  /** Every post moves the room's post time strictly forward, and keeps the row consistent. */
  lemma PostAdvancesTimestamp(row: Row, cs: seq<Challenge>, now: int, postedAt: int)
    requires now <= postedAt
    requires ChallengeToPost(row, cs, now).Some?
    ensures Consistent(RowAfterPass(row, cs, now, postedAt))
    ensures row.postedTimestamp.Some? ==>
              RowAfterPass(row, cs, now, postedAt).postedTimestamp.value >= row.postedTimestamp.value + OneWeekInSeconds
  {
  }

  /** A pass keeps every consistent row consistent. */
  lemma ReconcileKeepsConsistent(rooms: map<string, Row>, cs: seq<Challenge>, now: int, postedAt: int)
    requires AllConsistent(rooms)
    ensures AllConsistent(Reconciled(rooms, cs, now, postedAt))
  {
  }

  /**
   * The newness test compares creation times with the local post time.
   * A room joined at 1000 with challenges created at 100 and 200 gets the
   * first one, and a week later does not get the second: 200 is not after 1000.
   */
  lemma BacklogAfterFirstPostIsSkipped()
    ensures var a, b := Challenge("a", 100), Challenge("b", 200);
            var first := Reconciled(map["room" := Row(None, None)], [a, b], 1000, 1000);
            && first == map["room" := Row(Some("a"), Some(1000))]
            && RoomsToPost(first, [a, b], 1000 + OneWeekInSeconds + 100) == {}
  {
    var a, b := Challenge("a", 100), Challenge("b", 200);
    var start := map["room" := Row(None, None)];
    assert FirstNewChallenge([a, b], None) == Some(0);
    assert ChallengeToPost(start["room"], [a, b], 1000) == Some(a);
    var first := Reconciled(start, [a, b], 1000, 1000);
    assert first == map["room" := Row(Some("a"), Some(1000))];
    assert FirstNewChallenge([a, b], Some(1000)) == None by {
      assert FirstNewChallenge([b], Some(1000)) == None by {
        assert [b][1..] == [];
      }
      assert [a, b][1..] == [b];
    }
    assert ChallengeToPost(first["room"], [a, b], 1000 + OneWeekInSeconds + 100) == None;
  }

  /** Handling one more room of the snapshot: a post for it is one upsert of its row. */
  lemma ReconcileStep(rooms: map<string, Row>, cs: seq<Challenge>, now: int, postedAt: int,
                      done: set<string>, roomId: string)
    requires roomId in rooms
    ensures ChallengeToPost(rooms[roomId], cs, now).None? ==>
              PartlyReconciled(rooms, cs, now, postedAt, done + {roomId})
                == PartlyReconciled(rooms, cs, now, postedAt, done)
    ensures ChallengeToPost(rooms[roomId], cs, now).Some? ==>
              PartlyReconciled(rooms, cs, now, postedAt, done + {roomId})
                == Upserted(PartlyReconciled(rooms, cs, now, postedAt, done), roomId,
                            ChallengeToPost(rooms[roomId], cs, now), postedAt)
  {
  }

  /** `ChallengePoster`: posts challenges through the store it was given. */
  class ChallengePoster {
    const store: Store

    constructor (store: Store)
      ensures this.store == store
    {
      this.store := store;
    }

    /**
     * `_post_challenge`: send the challenge, then record it whether or not
     * the send raised. `sendRaises` stands for the outcome of the send.
     */
    method PostChallenge(roomId: string, challenge: Challenge, sendRaises: bool, postedAt: int)
      returns (delivered: bool)
      modifies store
      ensures delivered == !sendRaises
      ensures store.rooms == Upserted(old(store.rooms), roomId, Some(challenge), postedAt)
      ensures store.version == old(store.version)
    {
      delivered := !sendRaises;
      store.UpsertChallengeForRoom(roomId, Some(challenge), postedAt);
    }

    /**
     * `_update_rooms`: one pass over a snapshot of the table. Sends to the
     * rooms in `failingRooms` raise; posts are stamped `postedAt`.
     */
    method UpdateRooms(challenges: seq<Challenge>, now: int, postedAt: int, failingRooms: set<string>)
      returns (posts: seq<Post>)
      modifies store
      ensures store.rooms == Reconciled(old(store.rooms), challenges, now, postedAt)
      ensures store.version == old(store.version)
      ensures OnePostPerRoom(posts)
      ensures PostedRooms(posts) == RoomsToPost(old(store.rooms), challenges, now)
      ensures forall i :: 0 <= i < |posts| ==>
                posts[i].roomId in old(store.rooms)
                && ChallengeToPost(old(store.rooms)[posts[i].roomId], challenges, now) == Some(posts[i].challenge)
                && posts[i].delivered == (posts[i].roomId !in failingRooms)
    {
      var rooms := store.GetRooms();
      assert rooms == store.rooms;
      var pending := rooms.Keys;
      posts := [];
      assert PartlyReconciled(rooms, challenges, now, postedAt, {}) == rooms;
      while pending != {}
        invariant pending <= rooms.Keys
        invariant rooms == old(store.rooms)
        invariant store.rooms == PartlyReconciled(rooms, challenges, now, postedAt, rooms.Keys - pending)
        invariant store.version == old(store.version)
        invariant OnePostPerRoom(posts)
        invariant PostedRooms(posts) == RoomsToPost(rooms, challenges, now) - pending
        invariant forall i :: 0 <= i < |posts| ==>
                    posts[i].roomId in rooms && posts[i].roomId !in pending
                    && ChallengeToPost(rooms[posts[i].roomId], challenges, now) == Some(posts[i].challenge)
                    && posts[i].delivered == (posts[i].roomId !in failingRooms)
        decreases pending
      {
        var roomId :| roomId in pending;
        ghost var done := rooms.Keys - pending;
        ReconcileStep(rooms, challenges, now, postedAt, done, roomId);
        assert rooms.Keys - (pending - {roomId}) == done + {roomId};
        ghost var decided := RoomsToPost(rooms, challenges, now);
        assert roomId in decided ==> decided - (pending - {roomId}) == (decided - pending) + {roomId};
        assert roomId !in decided ==> decided - (pending - {roomId}) == decided - pending;
        pending := pending - {roomId};
        var lastPostTimestamp := rooms[roomId].postedTimestamp;
        if lastPostTimestamp.Some? && lastPostTimestamp.value + OneWeekInSeconds > now {
          // not a week since the last post in this room
          continue;
        }
        var j := 0;
        while j < |challenges|
          invariant 0 <= j <= |challenges|
          invariant forall k :: 0 <= k < j ==> AlreadyPosted(lastPostTimestamp, challenges[k])
          invariant store.rooms == PartlyReconciled(rooms, challenges, now, postedAt, done)
          invariant store.version == old(store.version)
        {
          var challenge := challenges[j];
          if Truthy(lastPostTimestamp) && challenge.createdUtc <= lastPostTimestamp.value {
            // already posted this one
            j := j + 1;
            continue;
          }
          assert FirstNewChallenge(challenges, lastPostTimestamp) == Some(j);
          var delivered := PostChallenge(roomId, challenge, roomId in failingRooms, postedAt);
          PostedRoomsAppend(posts, Post(roomId, challenge, delivered));
          posts := posts + [Post(roomId, challenge, delivered)];
          break;
        }
      }
      assert rooms.Keys - pending == rooms.Keys;
    }
  }
}
