/** The discrete rules inside the player component: the teleporter pair
    lookup and its one-second cooldown, the checkpoint update, and the
    respawn target. The component's refs and the store values it writes
    are the fields of PlayerController; `Date.now()` and the scene's
    `userData.halfWidth` / `halfHeight` are parameters. */
module PlayerRules {
  import opened Values

  /** `{ entry: {x, y}, exit: {x, y} }` in grid coordinates. */
  datatype TeleporterPair = TeleporterPair(entry: GridCoord, exit: GridCoord)

  /** The pad is one of the pair's two ends. */
  predicate Matches(p: TeleporterPair, pad: GridCoord) {
    p.entry == pad || p.exit == pad
  }

  /** Where a pair sends a player standing on one of its ends: the entry is
      tested first, so a pad equal to the entry leads to the exit. */
  function OtherEnd(p: TeleporterPair, pad: GridCoord): GridCoord {
    if p.entry == pad then p.exit else p.entry
  }

  /** The search over `teleporterPairs` (lines 282-297): the first pair
      with the pad as its entry or its exit decides the destination. */
  function FindDestination(pairs: seq<TeleporterPair>, pad: GridCoord): (d: Option<GridCoord>)
    ensures d.None? <==> forall i :: 0 <= i < |pairs| ==> !Matches(pairs[i], pad)
    ensures d.Some? ==> exists i :: (0 <= i < |pairs| && Matches(pairs[i], pad) && d.value == OtherEnd(pairs[i], pad)
                                     && forall j :: 0 <= j < i ==> !Matches(pairs[j], pad))
  {
    if pairs == [] then None
    else if pairs[0].entry == pad then Some(pairs[0].exit)
    else if pairs[0].exit == pad then Some(pairs[0].entry)
    else
      var rest := FindDestination(pairs[1..], pad);
      assert rest.Some? ==> exists i :: (0 <= i < |pairs| && Matches(pairs[i], pad) && rest.value == OtherEnd(pairs[i], pad)
                                         && forall j :: 0 <= j < i ==> !Matches(pairs[j], pad))
      by {
        if rest.Some? {
          var i :| 0 <= i < |pairs[1..]| && Matches(pairs[1..][i], pad) && rest.value == OtherEnd(pairs[1..][i], pad)
            && forall j :: 0 <= j < i ==> !Matches(pairs[1..][j], pad);
          assert Matches(pairs[i + 1], pad) && forall j :: 0 <= j < i + 1 ==> !Matches(pairs[j], pad);
        }
      }
      rest
  }

  /** No grid cell is an end of two different pairs. */
  predicate DistinctPads(pairs: seq<TeleporterPair>) {
    forall i, j :: 0 <= i < |pairs| && 0 <= j < |pairs| && i != j ==>
      !Matches(pairs[j], pairs[i].entry) && !Matches(pairs[j], pairs[i].exit)
  }

  /** With pads used by one pair each, teleporting from where a teleport
      landed leads back to where it started. */
  lemma TeleportRoundTrip(pairs: seq<TeleporterPair>, pad: GridCoord)
    requires DistinctPads(pairs)
    requires FindDestination(pairs, pad).Some?
    ensures FindDestination(pairs, FindDestination(pairs, pad).value) == Some(pad)
  {
    var d := FindDestination(pairs, pad).value;
    var i :| 0 <= i < |pairs| && Matches(pairs[i], pad) && d == OtherEnd(pairs[i], pad)
      && forall j :: 0 <= j < i ==> !Matches(pairs[j], pad);
    assert Matches(pairs[i], d);
    var back := FindDestination(pairs, d);
    var k :| 0 <= k < |pairs| && Matches(pairs[k], d) && back.value == OtherEnd(pairs[k], d)
      && forall j :: 0 <= j < k ==> !Matches(pairs[j], d);
    assert k == i;
  }

  /** The grid cell of a world position: `Math.round(x + halfWidth)`,
      `Math.round(z + halfHeight)` (lines 277-280). */
  function PadCell(p: Vec3, halfWidth: real, halfHeight: real): (c: GridCoord)
    ensures c.x as real - 0.5 <= p.x + halfWidth < c.x as real + 0.5
    ensures c.y as real - 0.5 <= p.z + halfHeight < c.y as real + 0.5
  {
    GridCoord(Round(p.x + halfWidth), Round(p.z + halfHeight))
  }

  /** Where a teleport to cell `d` puts the player: the cell's world
      position moved by 0.1 in x and z, at the player's own height
      (lines 306-313). */
  function Landing(d: GridCoord, y: real, halfWidth: real, halfHeight: real): Vec3 {
    Vec3(d.x as real - halfWidth + 0.1, y, d.y as real - halfHeight + 0.1)
  }

  /** Grid to world and back gives the same cell, with or without the
      landing offset. */
  lemma {:induction false} CellRoundTrip(c: GridCoord, y: real, halfWidth: real, halfHeight: real)
    ensures PadCell(Vec3(c.x as real - halfWidth, y, c.y as real - halfHeight), halfWidth, halfHeight) == c
    ensures PadCell(Landing(c, y, halfWidth, halfHeight), halfWidth, halfHeight) == c
  {
    var a := PadCell(Vec3(c.x as real - halfWidth, y, c.y as real - halfHeight), halfWidth, halfHeight);
    assert c.x as real - halfWidth + halfWidth == c.x as real;
    assert c.y as real - halfHeight + halfHeight == c.y as real;
    var b := PadCell(Landing(c, y, halfWidth, halfHeight), halfWidth, halfHeight);
    assert c.x as real - halfWidth + 0.1 + halfWidth == c.x as real + 0.1;
    assert c.y as real - halfHeight + 0.1 + halfHeight == c.y as real + 0.1;
  }

  /** The teleport cooldown in milliseconds. */
  const Cooldown: int := 1000

  /** What one teleporter activation did: `Inactive` when the teleporter
      check does not run at all (no pairs, or no scene data), `Skipped`
      within the cooldown. */
  datatype Teleport = Inactive | Skipped | Moved(to: GridCoord) | BackToStart

  /** The player's refs and the values it hands on: `position` is
      `ref.current.position`, `lastTeleportTime` the ref of that name,
      `lastCheckpoint` the store value, `penalties` the number of
      `applyRespawnPenalty()` calls and `reported` the positions passed to
      `setPlayerPosition` and `sendMove` (always the same value). */
  class PlayerController {
    var position: Vec3
    var lastTeleportTime: int
    var lastCheckpoint: Option<GridCoord>
    var penalties: nat
    var reported: seq<Vec3>

    constructor (startPosition: Vec3)
      ensures position == startPosition && lastTeleportTime == 0 && lastCheckpoint == None
      ensures penalties == 0 && reported == []
    {
      position := startPosition;
      lastTeleportTime := 0;
      lastCheckpoint := None;
      penalties := 0;
      reported := [];
    }

    /** The player stands on the pad at world position `pad` (lines
        234-354). The check runs only when there are teleporter pairs and
        the scene knows its half width; within the cooldown nothing
        happens; otherwise the pad's grid cell is looked up: a found
        destination moves the player there and records the time, a missing
        one puts the player back on the start without recording the
        time. */
    method ActivateTeleporter(now: int, pad: Vec3, halfWidth: Option<real>, halfHeight: real,
                              pairs: seq<TeleporterPair>, startPosition: Vec3)
      returns (outcome: Teleport)
      modifies this
      ensures lastCheckpoint == old(lastCheckpoint) && penalties == old(penalties)
      ensures |pairs| == 0 || halfWidth.None? ==>
        outcome == Inactive && position == old(position) && lastTeleportTime == old(lastTeleportTime)
        && reported == old(reported)
      ensures |pairs| > 0 && halfWidth.Some? && now - old(lastTeleportTime) < Cooldown ==>
        outcome == Skipped && position == old(position) && lastTeleportTime == old(lastTeleportTime)
        && reported == old(reported)
      ensures |pairs| > 0 && halfWidth.Some? && now - old(lastTeleportTime) >= Cooldown ==>
        match FindDestination(pairs, PadCell(pad, halfWidth.value, halfHeight))
        case Some(d) =>
          outcome == Moved(d) && position == Landing(d, old(position).y, halfWidth.value, halfHeight)
          && lastTeleportTime == now && reported == old(reported) + [position]
        case None =>
          outcome == BackToStart && position == startPosition
          && lastTeleportTime == old(lastTeleportTime) && reported == old(reported) + [startPosition]
    {
      if |pairs| == 0 || halfWidth.None? {
        return Inactive;
      }
      if now - lastTeleportTime < Cooldown {
        return Skipped;
      }
      var currentPadCoords := PadCell(pad, halfWidth.value, halfHeight);
      var destination := FindDestination(pairs, currentPadCoords);
      match destination {
        case Some(d) =>
          position := Landing(d, position.y, halfWidth.value, halfHeight);
          lastTeleportTime := now;
          reported := reported + [position];
          outcome := Moved(d);
        case None =>
          position := startPosition;
          reported := reported + [startPosition];
          outcome := BackToStart;
      }
    }

    /** The player is within reach of the checkpoint in cell `coords`
        (lines 384-408): a new checkpoint (none yet, or a different cell)
        replaces the last one. */
    method TouchCheckpoint(coords: GridCoord) returns (replaced: bool)
      modifies this
      ensures lastCheckpoint == Some(coords)
      ensures replaced <==> old(lastCheckpoint) != Some(coords)
      ensures position == old(position) && lastTeleportTime == old(lastTeleportTime)
      ensures penalties == old(penalties) && reported == old(reported)
    {
      replaced := lastCheckpoint.None? || lastCheckpoint.value.x != coords.x || lastCheckpoint.value.y != coords.y;
      if replaced {
        lastCheckpoint := Some(coords);
      }
    }

    /** `handleRespawn` (lines 122-148): the penalty always; then, when the
        scene knows its half width, the player goes to the last checkpoint's
        world position at the start height, or to the start without one. */
    method Respawn(halfWidth: Option<real>, halfHeight: real, startPosition: Vec3)
      modifies this
      ensures penalties == old(penalties) + 1
      ensures lastCheckpoint == old(lastCheckpoint) && lastTeleportTime == old(lastTeleportTime)
      ensures halfWidth.None? ==> position == old(position) && reported == old(reported)
      ensures halfWidth.Some? ==> reported == old(reported) + [position]
      ensures halfWidth.Some? ==> position == RespawnTarget(lastCheckpoint, halfWidth.value, halfHeight, startPosition)
    {
      penalties := penalties + 1;
      if halfWidth.Some? {
        var target := RespawnTarget(lastCheckpoint, halfWidth.value, halfHeight, startPosition);
        position := target;
        reported := reported + [target];
      }
    }
  }

  /** The respawn point: the checkpoint's world position at the start
      height, or the start position. */
  function RespawnTarget(checkpoint: Option<GridCoord>, halfWidth: real, halfHeight: real, startPosition: Vec3): (p: Vec3)
    ensures checkpoint.None? ==> p == startPosition
    ensures checkpoint.Some? ==> p.y == startPosition.y && PadCell(p, halfWidth, halfHeight) == checkpoint.value
  {
    match checkpoint
    case None => startPosition
    case Some(c) =>
      CellRoundTrip(c, startPosition.y, halfWidth, halfHeight);
      Vec3(c.x as real - halfWidth, startPosition.y, c.y as real - halfHeight)
  }

  /** A second activation less than a second after a successful teleport is
      skipped, even when it happens on the exit pad. */
  method TeleportCooldownHolds(player: PlayerController, now: int, later: int, pad: Vec3, exitPad: Vec3,
                               halfWidth: real, halfHeight: real, pairs: seq<TeleporterPair>, startPosition: Vec3)
    returns (first: Teleport, second: Teleport)
    requires later - now < Cooldown
    modifies player
    ensures first.Moved? ==> second == Skipped
  {
    first := player.ActivateTeleporter(now, pad, Some(halfWidth), halfHeight, pairs, startPosition);
    second := player.ActivateTeleporter(later, exitPad, Some(halfWidth), halfHeight, pairs, startPosition);
  }

  /** Touching a checkpoint and then respawning (with scene data) puts the
      player back in that checkpoint's cell; touching it again changes
      nothing. */
  method CheckpointThenRespawn(player: PlayerController, c: GridCoord, halfWidth: real, halfHeight: real,
                               startPosition: Vec3)
    returns (again: bool)
    modifies player
    ensures PadCell(player.position, halfWidth, halfHeight) == c && player.position.y == startPosition.y
    ensures !again
  {
    var _ := player.TouchCheckpoint(c);
    player.Respawn(Some(halfWidth), halfHeight, startPosition);
    again := player.TouchCheckpoint(c);
  }
}
