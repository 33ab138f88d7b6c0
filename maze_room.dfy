/** The authoritative room on the server: the players by session id, the
    ranking list of the current race, the maze index and the race clock.
    Message handlers and room callbacks are methods; `Date.now()` is the
    `now` parameter; broadcasts, `client.send` and the ten-second timer are
    not part of the model (Finish reports when it would start the timer). */
module MazeRoomModel {
  import opened Values
  import opened Rankings

  /** The `Player` schema. `finishTime` is `null` (None) after `startRace`
      and `0` for a player created later. */
  datatype RoomPlayer = RoomPlayer(id: string, name: string, position: Vec3, finishTime: Option<int>, currentMaze: int)

  /** The `Position` schema's initial value. */
  const SpawnPosition: Vec3 := Vec3(0.0, 0.5, 0.0)

  /** `new Player(id, name)`. */
  function NewPlayer(id: string, name: Option<string>): (p: RoomPlayer)
    ensures p.id == id && p.position == SpawnPosition && p.finishTime == Some(0) && p.currentMaze == 0
    ensures TruthyString(name) ==> p.name == name.value
    ensures !TruthyString(name) ==> p.name == "Player_" + id[..Min(5, |id|)]
  {
    RoomPlayer(id, StringOr(name, "Player_" + id[..Min(5, |id|)]), SpawnPosition, Some(0), 0)
  }

  /** The all-finished test: `finishTime !== null` for every player, so a
      finish time of 0 counts as finished. */
  function AllFinished(players: map<string, RoomPlayer>): (all: bool)
    ensures all <==> !exists s :: s in players && players[s].finishTime == None
    ensures (forall s :: s in players ==> players[s].finishTime == Some(0)) ==> all
  {
    forall s :: s in players ==> players[s].finishTime.Some?
  }

  /** A player may finish while its finish time is falsy (`null` or 0). */
  function MayFinish(players: map<string, RoomPlayer>, sessionId: string): (may: bool)
    ensures may <==> (sessionId in players
      && (players[sessionId].finishTime == None || players[sessionId].finishTime == Some(0)))
  {
    sessionId in players && !TruthyInt(players[sessionId].finishTime)
  }

  /** `data?.playerId || client.userData?.playerId || client.sessionId`. */
  function FinisherId(dataPlayerId: Option<string>, userDataPlayerId: Option<string>, sessionId: string): (id: string)
    ensures TruthyString(dataPlayerId) ==> id == dataPlayerId.value
    ensures !TruthyString(dataPlayerId) && TruthyString(userDataPlayerId) ==> id == userDataPlayerId.value
    ensures !TruthyString(dataPlayerId) && !TruthyString(userDataPlayerId) ==> id == sessionId
  {
    StringOr(dataPlayerId, StringOr(userDataPlayerId, sessionId))
  }

  class MazeRoom {
    var players: map<string, RoomPlayer>
    var rankings: seq<Ranking>
    var currentMaze: int
    var raceStartTime: int
    var raceActive: bool
    /** `client.userData.playerId` of each connected client. */
    var userData: map<string, string>

    ghost predicate Valid()
      reads this
    {
      0 <= currentMaze < 5 && SortedByTime(rankings)
    }

    /** `onCreate`: a `MazeState` created at `now`. */
    constructor (now: int)
      ensures Valid()
      ensures players == map[] && rankings == [] && currentMaze == 0 && raceStartTime == now && !raceActive
      ensures userData == map[]
    {
      players := map[];
      rankings := [];
      currentMaze := 0;
      raceStartTime := now;
      raceActive := false;
      userData := map[];
    }

    /** The `move` handler: only the sender's stored position changes, and
        nothing at all when the sender has no player. */
    method Move(sessionId: string, position: Vec3)
      modifies this
      ensures old(Valid()) ==> Valid()
      ensures sessionId in old(players) ==> players == old(players)[sessionId := old(players)[sessionId].(position := position)]
      ensures sessionId !in old(players) ==> players == old(players)
      ensures rankings == old(rankings) && currentMaze == old(currentMaze) && raceStartTime == old(raceStartTime)
      ensures raceActive == old(raceActive) && userData == old(userData)
    {
      if sessionId in players {
        var player := players[sessionId];
        players := players[sessionId := player.(position := position)];
      }
    }

    /** The `finish` handler. A player whose finish time is falsy gets
        `now - raceStartTime` as finish time and one ranking entry under the
        id from the message, the client's user data or the session id; the
        list is kept in time order. `timerStarted` says that every player
        now has a non-null finish time, which schedules `nextMaze`. */
    method Finish(sessionId: string, dataPlayerId: Option<string>, now: int)
      returns (recorded: bool, timerStarted: bool)
      modifies this
      ensures old(Valid()) ==> Valid()
      ensures recorded <==> old(MayFinish(players, sessionId))
      ensures recorded ==>
        var p := old(players)[sessionId];
        var finishTime := now - raceStartTime;
        var entry := Ranking(FinisherId(dataPlayerId, if sessionId in userData then Some(userData[sessionId]) else None, sessionId),
                             p.name, finishTime);
        players == old(players)[sessionId := p.(finishTime := Some(finishTime))]
        && rankings == SortByTime(old(rankings) + [entry])
        && SortedByTime(rankings) && multiset(rankings) == multiset(old(rankings)) + multiset{entry}
      ensures !recorded ==> players == old(players) && rankings == old(rankings)
      ensures timerStarted <==> recorded && AllFinished(players)
      ensures currentMaze == old(currentMaze) && raceStartTime == old(raceStartTime)
      ensures raceActive == old(raceActive) && userData == old(userData)
    {
      recorded, timerStarted := false, false;
      var userDataPlayerId := if sessionId in userData then Some(userData[sessionId]) else None;
      var playerId := FinisherId(dataPlayerId, userDataPlayerId, sessionId);
      if MayFinish(players, sessionId) {
        var player := players[sessionId];
        var finishTime := now - raceStartTime;
        players := players[sessionId := player.(finishTime := Some(finishTime))];
        var entries := rankings + [Ranking(playerId, player.name, finishTime)];
        SortByTimeOrders(entries);
        rankings := SortByTime(entries);
        recorded := true;
        timerStarted := AllFinished(players);
      }
    }

    /** The `nextMaze` message: rotates only when the first ranking's id is
        the requester's session id. */
    method RequestNextMaze(sessionId: string, now: int) returns (rotated: bool)
      modifies this
      ensures old(Valid()) ==> Valid()
      ensures rotated <==> |old(rankings)| > 0 && old(rankings)[0].id == sessionId
      ensures rotated ==>
        currentMaze == TruncRem(old(currentMaze) + 1, 5) && raceActive
        && raceStartTime == now && rankings == [] && players == ResetFinishTimes(old(players))
      ensures !rotated ==>
        currentMaze == old(currentMaze) && raceActive == old(raceActive)
        && raceStartTime == old(raceStartTime) && rankings == old(rankings) && players == old(players)
      ensures userData == old(userData)
    {
      rotated := |rankings| > 0 && rankings[0].id == sessionId;
      if rotated {
        NextMaze(now);
      }
    }

    /** `onJoin`: a new player under the session id, named after the given
        name or its id; the race (re)starts when it is the only player. */
    method Join(sessionId: string, optionsPlayerId: Option<string>, optionsName: Option<string>, now: int)
      modifies this
      ensures old(Valid()) ==> Valid()
      ensures var id := StringOr(optionsPlayerId, sessionId);
        var joined := old(players)[sessionId := NewPlayer(id, optionsName)];
        userData == old(userData)[sessionId := id]
        && (|joined| == 1 ==> players == ResetFinishTimes(joined) && raceActive && raceStartTime == now && rankings == [])
        && (|joined| != 1 ==>
              players == joined && raceActive == old(raceActive)
              && raceStartTime == old(raceStartTime) && rankings == old(rankings))
      ensures currentMaze == old(currentMaze)
      ensures sessionId in players
    {
      var playerId := StringOr(optionsPlayerId, sessionId);
      var player := NewPlayer(playerId, optionsName);
      players := players[sessionId := player];
      userData := userData[sessionId := playerId];
      if |players| == 1 {
        StartRace(now);
      }
    }

    /** `onLeave`: only that session's player goes; an empty room is
        reset. */
    method Leave(sessionId: string)
      modifies this
      ensures old(Valid()) ==> Valid()
      ensures players == old(players) - {sessionId}
      ensures userData == old(userData) - {sessionId}
      ensures |players| == 0 ==> currentMaze == 0 && !raceActive && rankings == []
      ensures |players| != 0 ==> currentMaze == old(currentMaze) && raceActive == old(raceActive) && rankings == old(rankings)
      ensures raceStartTime == old(raceStartTime)
    {
      players := players - {sessionId};
      userData := userData - {sessionId};
      if |players| == 0 {
        ResetRoom();
      }
    }

    /** `startRace`: the race runs from `now` with no rankings and every
        finish time `null`. */
    method StartRace(now: int)
      modifies this
      ensures old(Valid()) ==> Valid()
      ensures raceActive && raceStartTime == now && rankings == []
      ensures players == ResetFinishTimes(old(players))
      ensures currentMaze == old(currentMaze) && userData == old(userData)
    {
      raceActive := true;
      raceStartTime := now;
      rankings := [];
      players := ResetFinishTimes(players);
    }

    /** `nextMaze()`: the next of the five mazes and a new race. */
    method NextMaze(now: int)
      modifies this
      ensures old(Valid()) ==> Valid()
      ensures currentMaze == TruncRem(old(currentMaze) + 1, 5)
      ensures old(currentMaze) >= 0 ==> 0 <= currentMaze < 5
      ensures raceActive && raceStartTime == now && rankings == []
      ensures players == ResetFinishTimes(old(players)) && userData == old(userData)
    {
      currentMaze := TruncRem(currentMaze + 1, 5);
      rankings := [];
      StartRace(now);
    }

    /** `resetRoom`. */
    method ResetRoom()
      modifies this
      ensures old(Valid()) ==> Valid()
      ensures currentMaze == 0 && !raceActive && rankings == []
      ensures players == old(players) && raceStartTime == old(raceStartTime) && userData == old(userData)
    {
      currentMaze := 0;
      raceActive := false;
      rankings := [];
    }
  }

  /** Every player with its finish time set to `null`, nothing else
      changed. */
  function ResetFinishTimes(players: map<string, RoomPlayer>): (r: map<string, RoomPlayer>)
    ensures r.Keys == players.Keys
    ensures forall s :: s in r ==> r[s] == players[s].(finishTime := None)
    ensures forall s :: s in r ==> !TruthyInt(r[s].finishTime) && r[s].finishTime.None?
  {
    map s | s in players :: players[s].(finishTime := None)
  }

  /** A player who joins after the race started has finish time 0, which the
      all-finished test counts as finished: when the only racer finishes, the
      timer starts although the newcomer never finished. */
  method LateJoinerCountsAsFinished(room: MazeRoom, racer: string, newcomer: string, now: int)
    returns (timerStarted: bool)
    requires room.players.Keys == {racer} && MayFinish(room.players, racer)
    requires newcomer != racer
    modifies room
    ensures timerStarted
  {
    room.Join(newcomer, None, None, now);
    assert room.players.Keys == {racer, newcomer};
    var recorded;
    recorded, timerStarted := room.Finish(racer, None, now);
  }

  /** Rankings carry player ids while the rotation test compares with the
      session id: the only finisher of a race, who joined with a player id
      of its own, cannot rotate the maze. */
  method SessionIdBlocksRotation(room: MazeRoom, sessionId: string, playerId: string, now: int)
    returns (rotated: bool)
    requires room.rankings == [] && MayFinish(room.players, sessionId)
    requires sessionId in room.userData && room.userData[sessionId] == playerId
    requires playerId != "" && playerId != sessionId
    modifies room
    ensures !rotated
  {
    var recorded, _ := room.Finish(sessionId, None, now);
    var entry :| room.rankings == SortByTime([] + [entry]) && entry.id == playerId;
    assert [] + [entry] == [entry];
    SortSortedIsIdentity([entry]);
    rotated := room.RequestNextMaze(sessionId, now);
  }

  /** A finish in the same millisecond as the start is recorded as 0, which
      is falsy, so the same player can finish again and is ranked twice. */
  method ZeroTimeFinishRepeats(now: int) returns (count: nat)
    ensures count == 2
  {
    var room := new MazeRoom(now);
    room.Join("solo", None, None, now);
    var first, _ := room.Finish("solo", None, now);
    var second, _ := room.Finish("solo", None, now + 10);
    count := |room.rankings|;
  }

  /** A session that joins a non-empty room and leaves again leaves the
      other players as they were. */
  method JoinThenLeave(room: MazeRoom, sessionId: string, now: int)
    requires sessionId !in room.players && |room.players| >= 1
    modifies room
    ensures room.players == old(room.players)
  {
    room.Join(sessionId, None, None, now);
    assert |room.players| == |old(room.players)| + 1;
    room.Leave(sessionId);
  }
}
