/** The server's pure helpers: ranking sort, the serialisers that fill in
    defaults before a value is sent, and the default player name. */
module ServerHelpers {
  import opened Values
  import opened Text
  import opened Rankings

  /** `sortRankings`: `None` stands for `null`, `undefined` and any value
      that is not an array, all of which give an empty list; otherwise a
      sorted copy (values are immutable here, so the input is untouched by
      construction). */
  function SortRankings(rankings: Option<seq<Ranking>>): (r: seq<Ranking>)
    ensures rankings.None? ==> r == []
    ensures rankings.Some? ==> SortedByTime(r) && multiset(r) == multiset(rankings.value)
    ensures rankings.Some? ==> forall t :: WithTime(r, t) == WithTime(rankings.value, t)
  {
    match rankings
    case None => []
    case Some(s) =>
      SortByTimeCorrect(s);
      SortByTime(s)
  }

  /** A ranking object as it may arrive: any field may be missing. */
  datatype LooseRanking = LooseRanking(id: Option<string>, name: Option<string>, time: Option<int>)

  /** `simplifyRanking`: `null` stays `null`; falsy fields take the defaults
      `"unknown"`, `"Unknown"` and `0`. */
  function SimplifyRanking(ranking: Option<LooseRanking>): (r: Option<Ranking>)
    ensures r.Some? <==> ranking.Some?
    ensures ranking.Some? ==> r.value.id != "" && r.value.name != ""
    ensures ranking.Some? && TruthyString(ranking.value.id) ==> r.value.id == ranking.value.id.value
    ensures ranking.Some? && !TruthyString(ranking.value.id) ==> r.value.id == "unknown"
    ensures ranking.Some? && TruthyString(ranking.value.name) ==> r.value.name == ranking.value.name.value
    ensures ranking.Some? && !TruthyString(ranking.value.name) ==> r.value.name == "Unknown"
    ensures ranking.Some? ==> r.value.time == (if TruthyInt(ranking.value.time) then ranking.value.time.value else 0)
  {
    match ranking
    case None => None
    case Some(x) => Some(Ranking(StringOr(x.id, "unknown"), StringOr(x.name, "Unknown"), IntOr(x.time, 0)))
  }

  /** A simplified ranking seen again as an incoming object. */
  function LoosenRanking(r: Ranking): LooseRanking {
    LooseRanking(Some(r.id), Some(r.name), Some(r.time))
  }

  /** Simplifying a simplified ranking changes nothing. */
  lemma SimplifyRankingIdempotent(ranking: LooseRanking)
    ensures SimplifyRanking(Some(LoosenRanking(SimplifyRanking(Some(ranking)).value)))
         == SimplifyRanking(Some(ranking))
  {
  }

  /** A position object as it may arrive. */
  datatype LoosePosition = LoosePosition(x: Option<real>, y: Option<real>, z: Option<real>)

  /** A player object as it may arrive. */
  datatype LoosePlayer = LoosePlayer(
    id: Option<string>, name: Option<string>, position: Option<LoosePosition>, finishTime: Option<int>)

  /** What `simplifyPlayer` sends. */
  datatype PlayerView = PlayerView(id: string, name: string, position: Vec3, finishTime: int)

  /** The spawn point used when no position is known. */
  const DefaultPosition: Vec3 := Vec3(0.0, 0.5, 0.0)

  /** `simplifyPlayer`: `null` stays `null`; a missing position becomes
      `{0, 0.5, 0}`, a falsy coordinate its default (so `y = 0` becomes
      `0.5`), a falsy finish time `0`, falsy id and name the defaults. */
  function SimplifyPlayer(player: Option<LoosePlayer>): (r: Option<PlayerView>)
    ensures r.Some? <==> player.Some?
    ensures player.Some? ==> r.value.id == StringOr(player.value.id, "unknown")
    ensures player.Some? ==> r.value.name == StringOr(player.value.name, "Unknown")
    ensures player.Some? ==> r.value.finishTime == IntOr(player.value.finishTime, 0)
    ensures player.Some? && player.value.position.None? ==> r.value.position == DefaultPosition
    ensures player.Some? ==> r.value.position.y != 0.0
    ensures player.Some? && player.value.position.Some? ==>
      var p := player.value.position.value;
      r.value.position == Vec3(RealOr(p.x, 0.0), RealOr(p.y, 0.5), RealOr(p.z, 0.0))
  {
    match player
    case None => None
    case Some(p) =>
      var pos := match p.position
        case None => DefaultPosition
        case Some(q) => Vec3(RealOr(q.x, 0.0), RealOr(q.y, 0.5), RealOr(q.z, 0.0));
      Some(PlayerView(StringOr(p.id, "unknown"), StringOr(p.name, "Unknown"), pos, IntOr(p.finishTime, 0)))
  }

  function LoosenPlayer(v: PlayerView): LoosePlayer {
    LoosePlayer(Some(v.id), Some(v.name),
                Some(LoosePosition(Some(v.position.x), Some(v.position.y), Some(v.position.z))),
                Some(v.finishTime))
  }

  /** Simplifying a simplified player changes nothing. */
  lemma SimplifyPlayerIdempotent(player: LoosePlayer)
    ensures SimplifyPlayer(Some(LoosenPlayer(SimplifyPlayer(Some(player)).value)))
         == SimplifyPlayer(Some(player))
  {
  }

  /** `generatePlayerName`: `Player_` and the first five characters of a
      truthy session id; otherwise `Player_` and `randomNumber`, the value
      `Math.floor(Math.random() * 1000)` the source draws. */
  function GeneratePlayerName(sessionId: Option<string>, randomNumber: nat): (name: string)
    requires randomNumber < 1000
    ensures |name| >= 8 && name[..7] == "Player_"
    ensures TruthyString(sessionId) ==>
      |name| == 7 + Min(5, |sessionId.value|) && name[7..] == sessionId.value[..Min(5, |sessionId.value|)]
    ensures !TruthyString(sessionId) ==> AllDigits(name[7..]) && DigitsValue(name[7..]) == randomNumber
    ensures !TruthyString(sessionId) ==> (name[7] == '0' <==> randomNumber == 0)
  {
    if TruthyString(sessionId) then
      "Player_" + sessionId.value[..Min(5, |sessionId.value|)]
    else
      NatToStringValue(randomNumber);
      "Player_" + NatToString(randomNumber)
  }
}
