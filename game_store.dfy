/** The client's race store: the current maze, the race flags and clock,
    the per-maze best times and the local ranking list. `Date.now()` is the
    `now` parameter of the actions that read it, and each firing of the
    100 ms interval started by `startRace` is a call of `Tick`. */
module GameStore {
  import opened Values
  import opened Rankings

  /** `Math.min(finishTime, previous || Infinity)`: a missing or zero
      previous best counts as no best at all. */
  function BestAfter(previous: Option<int>, finishTime: int): (best: int)
    ensures best <= finishTime
    ensures TruthyInt(previous) ==> best <= previous.value && (best == finishTime || best == previous.value)
    ensures !TruthyInt(previous) ==> best == finishTime
  {
    if TruthyInt(previous) then Min(finishTime, previous.value) else finishTime
  }

  /** The best-times table after a finish on maze `mazeIndex`: only that
      maze's entry changes, to the better of the old best and the new time. */
  function RecordBest(bestTimes: map<int, int>, mazeIndex: int, finishTime: int): (r: map<int, int>)
    ensures r.Keys == bestTimes.Keys + {mazeIndex}
    ensures r[mazeIndex] == BestAfter(if mazeIndex in bestTimes then Some(bestTimes[mazeIndex]) else None, finishTime)
    ensures forall k :: k in bestTimes && k != mazeIndex ==> r[k] == bestTimes[k]
  {
    var previous := if mazeIndex in bestTimes then Some(bestTimes[mazeIndex]) else None;
    bestTimes[mazeIndex := BestAfter(previous, finishTime)]
  }

  /** Recording finish times one after another keeps the smallest one, as
      long as none of them is zero. */
  lemma BestAfterTwice(first: int, second: int)
    requires first != 0
    ensures BestAfter(Some(BestAfter(None, first)), second) == Min(first, second)
  {
  }

  /** A recorded best of zero is forgotten by the next finish. */
  lemma ZeroBestIsForgotten(finishTime: int)
    ensures BestAfter(Some(BestAfter(None, 0)), finishTime) == finishTime
  {
  }

  class Store {
    var currentMazeIndex: int
    var raceFinished: bool
    var raceStarted: bool
    var raceStartTime: Option<int>
    var playerPositions: map<string, Vec3>
    var playerRankings: seq<Ranking>
    const totalMazes: int := 5
    var playerId: string
    var playerName: string
    var currentTime: int
    var bestTimes: map<int, int>
    /** Intervals started by `startRace` that have not cleared themselves. */
    var timers: nat

    /** The maze index stays a layout index and the ranking list sorted. */
    ghost predicate Valid()
      reads this
    {
      0 <= currentMazeIndex < totalMazes && SortedByTime(playerRankings)
    }

    /** The initial state. `playerId` and `playerName` are the random
        defaults the source draws (`player_…` and `Player_…`). */
    constructor (playerId: string, playerName: string)
      ensures Valid()
      ensures currentMazeIndex == 0 && !raceFinished && !raceStarted && raceStartTime == None
      ensures playerPositions == map[] && playerRankings == []
      ensures this.playerId == playerId && this.playerName == playerName
      ensures currentTime == 0 && bestTimes == map[] && timers == 0
    {
      currentMazeIndex := 0;
      raceFinished := false;
      raceStarted := false;
      raceStartTime := None;
      playerPositions := map[];
      playerRankings := [];
      this.playerId := playerId;
      this.playerName := playerName;
      currentTime := 0;
      bestTimes := map[];
      timers := 0;
    }

    /** `setPlayerPosition`: only that player's entry changes. */
    method SetPlayerPosition(id: string, position: Vec3)
      modifies this
      ensures old(Valid()) ==> Valid()
      ensures playerPositions == old(playerPositions)[id := position]
      ensures forall other :: other in old(playerPositions) && other != id ==>
        other in playerPositions && playerPositions[other] == old(playerPositions)[other]
      ensures currentMazeIndex == old(currentMazeIndex) && raceFinished == old(raceFinished)
      ensures raceStarted == old(raceStarted) && raceStartTime == old(raceStartTime)
      ensures playerRankings == old(playerRankings) && currentTime == old(currentTime)
      ensures bestTimes == old(bestTimes) && timers == old(timers)
      ensures playerId == old(playerId) && playerName == old(playerName)
    {
      playerPositions := playerPositions[id := position];
    }

    /** `startRace`: the race starts now with a zero clock, and one more
        interval is running. */
    method StartRace(now: int)
      modifies this
      ensures old(Valid()) ==> Valid()
      ensures raceStarted && raceStartTime == Some(now) && currentTime == 0 && timers == old(timers) + 1
      ensures currentMazeIndex == old(currentMazeIndex) && raceFinished == old(raceFinished)
      ensures playerPositions == old(playerPositions) && playerRankings == old(playerRankings)
      ensures bestTimes == old(bestTimes) && playerId == old(playerId) && playerName == old(playerName)
    {
      raceStarted := true;
      raceStartTime := Some(now);
      currentTime := 0;
      timers := timers + 1;
    }

    /** One firing of a running interval: a finished race clears the
        interval and changes nothing else; otherwise the clock becomes
        `now - raceStartTime` (JavaScript reads a `null` start as 0). */
    method Tick(now: int)
      requires timers > 0
      modifies this
      ensures old(Valid()) ==> Valid()
      ensures old(raceFinished) ==> timers == old(timers) - 1 && currentTime == old(currentTime)
      ensures !old(raceFinished) ==>
        timers == old(timers) && currentTime == now - (match raceStartTime case Some(t) => t case None => 0)
      ensures currentMazeIndex == old(currentMazeIndex) && raceFinished == old(raceFinished)
      ensures raceStarted == old(raceStarted) && raceStartTime == old(raceStartTime)
      ensures playerPositions == old(playerPositions) && playerRankings == old(playerRankings)
      ensures bestTimes == old(bestTimes) && playerId == old(playerId) && playerName == old(playerName)
    {
      if raceFinished {
        timers := timers - 1;
        return;
      }
      var elapsed := now - match raceStartTime case Some(t) => t case None => 0;
      currentTime := elapsed;
    }

    /** `setRaceFinished(value)`: finishing an unfinished race records the
        clock as a best time for the current maze and as a new ranking of
        the local player, kept in time order; the flag is set in every
        case. */
    method SetRaceFinished(value: bool)
      modifies this
      ensures old(Valid()) ==> Valid()
      ensures raceFinished == value
      ensures value && !old(raceFinished) ==>
        bestTimes == RecordBest(old(bestTimes), currentMazeIndex, currentTime)
        && playerRankings == SortByTime(old(playerRankings) + [Ranking(playerId, playerName, currentTime)])
        && SortedByTime(playerRankings)
      ensures !(value && !old(raceFinished)) ==> bestTimes == old(bestTimes) && playerRankings == old(playerRankings)
      ensures currentMazeIndex == old(currentMazeIndex) && raceStarted == old(raceStarted)
      ensures raceStartTime == old(raceStartTime) && currentTime == old(currentTime) && timers == old(timers)
      ensures playerPositions == old(playerPositions) && playerId == old(playerId) && playerName == old(playerName)
    {
      if value && !raceFinished {
        var finishTime := currentTime;
        bestTimes := RecordBest(bestTimes, currentMazeIndex, finishTime);
        var entries := playerRankings + [Ranking(playerId, playerName, finishTime)];
        SortByTimeOrders(entries);
        playerRankings := SortByTime(entries);
      }
      raceFinished := value;
    }

    /** `nextMaze`: the next of the five layouts, a fresh race; best times
        and player data stay. */
    method NextMaze()
      modifies this
      ensures old(Valid()) ==> Valid()
      ensures currentMazeIndex == TruncRem(old(currentMazeIndex) + 1, totalMazes)
      ensures !raceFinished && !raceStarted && raceStartTime == None && currentTime == 0 && playerRankings == []
      ensures bestTimes == old(bestTimes) && playerPositions == old(playerPositions) && timers == old(timers)
      ensures playerId == old(playerId) && playerName == old(playerName)
    {
      var currentIndex := currentMazeIndex;
      var nextIndex := TruncRem(currentIndex + 1, totalMazes);
      currentMazeIndex := nextIndex;
      raceFinished := false;
      raceStarted := false;
      raceStartTime := None;
      currentTime := 0;
      playerRankings := [];
    }

    /** `setPlayerInfo`. */
    method SetPlayerInfo(id: string, name: string)
      modifies this
      ensures old(Valid()) ==> Valid()
      ensures playerId == id && playerName == name
      ensures currentMazeIndex == old(currentMazeIndex) && raceFinished == old(raceFinished)
      ensures raceStarted == old(raceStarted) && raceStartTime == old(raceStartTime)
      ensures playerPositions == old(playerPositions) && playerRankings == old(playerRankings)
      ensures currentTime == old(currentTime) && bestTimes == old(bestTimes) && timers == old(timers)
    {
      playerId := id;
      playerName := name;
    }

    /** `addPlayerRanking`: one more entry, in time order, even when that id
        is already ranked. */
    method AddPlayerRanking(id: string, name: string, time: int)
      modifies this
      ensures old(Valid()) ==> Valid()
      ensures playerRankings == SortByTime(old(playerRankings) + [Ranking(id, name, time)])
      ensures SortedByTime(playerRankings)
      ensures multiset(playerRankings) == multiset(old(playerRankings)) + multiset{Ranking(id, name, time)}
      ensures |playerRankings| == |old(playerRankings)| + 1
      ensures currentMazeIndex == old(currentMazeIndex) && raceFinished == old(raceFinished)
      ensures raceStarted == old(raceStarted) && raceStartTime == old(raceStartTime)
      ensures playerPositions == old(playerPositions) && currentTime == old(currentTime)
      ensures bestTimes == old(bestTimes) && timers == old(timers)
      ensures playerId == old(playerId) && playerName == old(playerName)
    {
      var entries := playerRankings + [Ranking(id, name, time)];
      SortByTimeOrders(entries);
      playerRankings := SortByTime(entries);
    }

    /** `resetGame`: back to the first maze with a fresh race; best times
        and player data stay. */
    method ResetGame()
      modifies this
      ensures currentMazeIndex == 0
      ensures !raceFinished && !raceStarted && raceStartTime == None && currentTime == 0 && playerRankings == []
      ensures bestTimes == old(bestTimes) && playerPositions == old(playerPositions) && timers == old(timers)
      ensures playerId == old(playerId) && playerName == old(playerName)
      ensures Valid()
    {
      currentMazeIndex := 0;
      raceFinished := false;
      raceStarted := false;
      raceStartTime := None;
      currentTime := 0;
      playerRankings := [];
    }
  }

  /** Finishing twice in a row changes nothing the second time. */
  method FinishIsIdempotent(store: Store) returns (rankingsAfterFirst: seq<Ranking>, bestAfterFirst: map<int, int>)
    modifies store
    ensures store.raceFinished
    ensures store.playerRankings == rankingsAfterFirst && store.bestTimes == bestAfterFirst
  {
    store.SetRaceFinished(true);
    rankingsAfterFirst, bestAfterFirst := store.playerRankings, store.bestTimes;
    store.SetRaceFinished(true);
  }

  /** Once the race is finished the clock stops: a tick only clears its
      interval. */
  method ClockStopsAtFinish(store: Store, now: int) returns (stopped: int)
    requires store.timers > 0
    modifies store
    ensures store.raceFinished && store.currentTime == stopped
  {
    store.SetRaceFinished(true);
    stopped := store.currentTime;
    store.Tick(now);
  }

  /** Five `nextMaze` calls come back to the same layout, with the best
      times untouched. */
  method FiveMazesComeBack(store: Store) returns (start: int)
    requires store.Valid()
    modifies store
    ensures store.Valid() && store.currentMazeIndex == start
    ensures store.bestTimes == old(store.bestTimes)
  {
    start := store.currentMazeIndex;
    var k := 0;
    while k < 5
      invariant 0 <= k <= 5 && store.Valid()
      invariant store.currentMazeIndex == (start + k) % 5
      invariant store.bestTimes == old(store.bestTimes)
    {
      store.NextMaze();
      k := k + 1;
    }
  }
}
