/**
 * The chat callbacks: command messages, invites with their join retries,
 * and the membership events that remove a room's row.
 */
module BotCallbacks {
  import opened Types
  import opened Storage
  import opened BotCommands

  /** `for attempt in range(3)`: the bot tries to join at most this often. */
  const JoinAttempts: nat := 3

  /** Index of the first successful join among the first `limit` answers. */
  function FirstSuccess(results: seq<bool>, limit: nat): (r: Option<nat>)
    ensures r.Some? ==> r.value < limit && r.value < |results| && results[r.value]
    ensures r.Some? ==> forall k :: 0 <= k < r.value ==> !results[k]
    ensures r.None? <==> forall k :: 0 <= k < limit && k < |results| ==> !results[k]
  {
    if limit == 0 || results == [] then None
    else if results[0] then Some(0)
    else match FirstSuccess(results[1..], limit - 1)
      case None => None
      case Some(i) => Some(i + 1)
  }

  /** Number of join calls an invite makes when the server answers `results` in turn. */
  function JoinCallsMade(results: seq<bool>): (n: nat)
    requires |results| >= JoinAttempts
    ensures 1 <= n <= JoinAttempts
    ensures n < JoinAttempts ==> results[n - 1]
    ensures forall k :: 0 <= k < n - 1 ==> !results[k]
  {
    match FirstSuccess(results, JoinAttempts)
    case Some(i) => i + 1
    case None => JoinAttempts
  }

  /** Python's `s.startswith(prefix)`. */
  predicate StartsWith(s: string, prefix: string)
    ensures StartsWith(s, prefix) <==> |prefix| <= |s| && s == prefix + s[|prefix|..]
  {
    |prefix| <= |s| && s[..|prefix|] == prefix
  }

  /** An exception caught while a command is processed. */
  datatype Failure = CommandError(msg: string) | UnknownError(description: string)

  const CommandErrorLead: string := "Error: "
  const UnknownErrorLead: string := "An unknown error occurred: "

  /** The text sent back for a caught exception. */
  function FailureReply(f: Failure): (r: string)
    ensures f.CommandError? <==> StartsWith(r, CommandErrorLead)
    ensures f.CommandError? ==> r[|CommandErrorLead|..] == f.msg
    ensures f.UnknownError? ==> StartsWith(r, UnknownErrorLead) && r[|UnknownErrorLead|..] == f.description
  {
    match f
    case CommandError(msg) => CommandErrorLead + msg
    case UnknownError(description) =>
      var r := UnknownErrorLead + description;
      assert r[0] != CommandErrorLead[0];
      r
  }

  /** What a message callback does. */
  datatype MessageOutcome =
    | Ignored                          // from the bot itself, or not a command
    | Raised                           // `Command(...)` raised before the `try`
    | Handled(attempted: seq<string>)  // the texts whose send was attempted, in order

  /**
   * The texts whose send is attempted for a command whose reply is
   * `reply`; when sending the reply raises `sendError`, the error report
   * follows it.
   */
  function TextsSent(reply: Option<string>, sendError: Option<string>): (texts: seq<string>)
    ensures |texts| == (if reply.None? then 0 else if sendError.None? then 1 else 2)
    ensures reply.Some? ==> texts[0] == reply.value
    ensures |texts| == 2 ==> texts[1] == FailureReply(UnknownError(sendError.value))
  {
    match reply
    case None => []
    case Some(text) =>
      match sendError
      case None => [text]
      case Some(e) => [text, FailureReply(UnknownError(e))]
  }

  /** The `Callbacks` object: the store, the bot's own user id and command prefix, and the joined-room set. */
  class Callbacks {
    const store: Store
    const commandPrefix: string
    const botUser: string
    /** Rooms joined since their last invite; absorbs the second invite callback of each invite. */
    var joinedRooms: set<string>

    constructor (store: Store, commandPrefix: string, botUser: string)
      ensures this.store == store && this.commandPrefix == commandPrefix && this.botUser == botUser
      ensures joinedRooms == {}
    {
      this.store := store;
      this.commandPrefix := commandPrefix;
      this.botUser := botUser;
      joinedRooms := {};
    }

    /**
     * `message`: ignore the bot's own messages and anything without the
     * prefix; otherwise parse and process the command. `sendError` is the
     * exception the reply's send raises, if any.
     */
    method Message(sender: string, body: string, sendError: Option<string>) returns (outcome: MessageOutcome)
      ensures sender == botUser ==> outcome == Ignored
      ensures !StartsWith(body, commandPrefix) ==> outcome == Ignored
      ensures outcome == Ignored <==> sender == botUser || !StartsWith(body, commandPrefix)
      ensures outcome == Raised <==>
                sender != botUser && StartsWith(body, commandPrefix)
                && Split(body[|commandPrefix|..]) == []
      ensures outcome.Handled? ==>
                var cmd := Parse(commandPrefix, body).value;
                [cmd.command] + cmd.args == Split(body[|commandPrefix|..])
                && outcome.attempted == TextsSent(Process(cmd), sendError)
    {
      if sender == botUser {
        return Ignored;
      }
      if !StartsWith(body, commandPrefix) {
        return Ignored;
      }
      assert DropPrefix(commandPrefix, body) == body[|commandPrefix|..];
      var parsed := Parse(commandPrefix, body);
      if parsed.None? {
        // `pop(0)` on an empty token list raises outside the `try`
        return Raised;
      }
      var reply := Process(parsed.value);
      outcome := Handled(TextsSent(reply, sendError));
    }

    /**
     * `invite`: absorb a repeated invite, otherwise try to join up to three
     * times; `joinResults[k]` is whether attempt `k` succeeds.
     */
    method Invite(roomId: string, joinResults: seq<bool>) returns (joinCalls: nat, joined: bool)
      requires |joinResults| >= JoinAttempts
      modifies this, store
      ensures old(roomId in joinedRooms) ==>
                joinCalls == 0 && !joined
                && joinedRooms == old(joinedRooms) - {roomId} && store.rooms == old(store.rooms)
      ensures old(roomId !in joinedRooms) ==>
                joinCalls == JoinCallsMade(joinResults)
                && joined == FirstSuccess(joinResults, JoinAttempts).Some?
      ensures old(roomId !in joinedRooms) && joined ==>
                joinedRooms == old(joinedRooms) + {roomId}
                && store.rooms == Upserted(old(store.rooms), roomId, None, 0)
      ensures old(roomId !in joinedRooms) && !joined ==>
                joinedRooms == old(joinedRooms) && store.rooms == old(store.rooms)
      ensures store.version == old(store.version)
    {
      if roomId in joinedRooms {
        joinedRooms := joinedRooms - {roomId};
        return 0, false;
      }
      var attempt := 0;
      joined := false;
      while attempt < JoinAttempts
        invariant 0 <= attempt <= JoinAttempts
        invariant forall k :: 0 <= k < attempt ==> !joinResults[k]
      {
        if joinResults[attempt] {
          joined := true;
          break;
        }
        attempt := attempt + 1;
      }
      if !joined {
        // unable to join the room
        return JoinAttempts, false;
      }
      assert FirstSuccess(joinResults, JoinAttempts) == Some(attempt);
      joinCalls := attempt + 1;
      joinedRooms := joinedRooms + {roomId};
      // the clock is not read when no challenge is given
      store.UpsertChallengeForRoom(roomId, None, 0);
    }

    /**
     * `member_event`: a kick or a ban of any member of the room deletes the
     * room's row; the event's target is not looked at.
     */
    method MemberEvent(roomId: string, membership: string)
      modifies store
      ensures membership == "kick" || membership == "ban" ==> store.rooms == Deleted(old(store.rooms), roomId)
      ensures membership != "kick" && membership != "ban" ==> store.rooms == old(store.rooms)
      ensures store.version == old(store.version)
    {
      if membership == "kick" || membership == "ban" {
        KickOrBan(roomId);
      }
    }

    /** `_kick_or_ban`. */
    method KickOrBan(roomId: string)
      modifies store
      ensures store.rooms == Deleted(old(store.rooms), roomId)
      ensures store.version == old(store.version)
    {
      store.DeleteRoomEntry(roomId);
    }
  }

  /**
   * The chat library reports every invite twice. When the first report
   * joins, the second changes nothing in the store and clears the room
   * from the joined set; when the first report could not join, the second
   * is handled like a fresh invite.
   */
  method InviteReportedTwice(callbacks: Callbacks, roomId: string, firstResults: seq<bool>, secondResults: seq<bool>)
    requires |firstResults| >= JoinAttempts && |secondResults| >= JoinAttempts
    requires roomId !in callbacks.joinedRooms
    modifies callbacks, callbacks.store
    ensures FirstSuccess(firstResults, JoinAttempts).Some? ==>
              callbacks.joinedRooms == old(callbacks.joinedRooms)
              && callbacks.store.rooms == Upserted(old(callbacks.store.rooms), roomId, None, 0)
    ensures FirstSuccess(firstResults, JoinAttempts).None? && FirstSuccess(secondResults, JoinAttempts).Some? ==>
              callbacks.joinedRooms == old(callbacks.joinedRooms) + {roomId}
              && callbacks.store.rooms == Upserted(old(callbacks.store.rooms), roomId, None, 0)
    ensures FirstSuccess(firstResults, JoinAttempts).None? && FirstSuccess(secondResults, JoinAttempts).None? ==>
              callbacks.joinedRooms == old(callbacks.joinedRooms)
              && callbacks.store.rooms == old(callbacks.store.rooms)
  {
    var firstCalls, firstJoined := callbacks.Invite(roomId, firstResults);
    var secondCalls, secondJoined := callbacks.Invite(roomId, secondResults);
  }
}
