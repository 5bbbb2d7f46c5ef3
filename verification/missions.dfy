/** Missions as stored rows, and the guarded operations that create, recall and
    toggle them (lib/game/missions/create-mission.ts, recall-mission.ts,
    toggle-mission-loop.ts). A mission's id is its position in the table. */
module Missions {
  import opened Wrappers
  import Distance
  import MissionStatus
  import MapGenerator
  import Villages
  import Inhabitants

  datatype Mission = Mission(
    id: nat,
    villageId: nat,
    inhabitantType: string,
    targetX: int,
    targetY: int,
    departedAt: int,
    travelSeconds: int,
    workSeconds: int,
    recalledAt: Option<int>,
    completedAt: Option<int>,
    loop: bool)

  /** A worker type's mission stats from the catalog. */
  datatype TypeStats = TypeStats(speed: int, gatherRate: int, maxCapacity: int)

  /** What the status calculator reads from a mission. */
  function DataOf(m: Mission, stats: TypeStats): MissionStatus.MissionData
  {
    MissionStatus.MissionData(m.departedAt, m.travelSeconds, m.workSeconds, m.recalledAt,
                              stats.gatherRate, stats.maxCapacity)
  }

  /** Unfinished missions of a village and worker type, from index `i` on. */
  function ActiveOfType(rows: seq<Mission>, villageId: nat, t: string, i: nat): (n: nat)
    requires i <= |rows|
    decreases |rows| - i
    ensures n <= |rows| - i
  {
    if i == |rows| then 0
    else (if rows[i].villageId == villageId && rows[i].inhabitantType == t && rows[i].completedAt.None? then 1 else 0)
         + ActiveOfType(rows, villageId, t, i + 1)
  }

  /** Appending a mission counts it, and only it, on top of the others. */
  lemma {:induction false} ActiveOfTypeAppend(rows: seq<Mission>, m: Mission, villageId: nat, t: string, i: nat)
    requires i <= |rows|
    decreases |rows| - i
    ensures ActiveOfType(rows + [m], villageId, t, i) ==
            ActiveOfType(rows, villageId, t, i)
            + (if m.villageId == villageId && m.inhabitantType == t && m.completedAt.None? then 1 else 0)
  {
    if i < |rows| {
      ActiveOfTypeAppend(rows, m, villageId, t, i + 1);
      assert (rows + [m])[i] == rows[i];
    }
  }

  /** `worldMap[targetY]?.[targetX]`. */
  function TargetCell(grid: seq<seq<MapGenerator.Cell>>, x: int, y: int): (c: Option<MapGenerator.Cell>)
    ensures c.Some? <==> 0 <= y < |grid| && 0 <= x < |grid[y]|
    ensures c.Some? ==> c.value == grid[y][x]
  {
    if 0 <= y < |grid| && 0 <= x < |grid[y]| then Some(grid[y][x]) else None
  }

  datatype CreateError =
    | InvalidWorkDuration
    | VillageNotFound
    | TargetNotForest
    | LumberjackStatsMissing
    | NoLumberjackAvailable
    | TargetIsVillage

  /** The field `create-mission.ts` reads as the cell's feature. A map cell has
      `x`, `y` and `biome` only, so the read is always undefined. */
  function FeatureOf(c: MapGenerator.Cell): Option<string>
  {
    None
  }

  /** The terrain test as written: `cell.feature !== 'foret'` rejects every cell. */
  predicate IsForestAsWritten(c: MapGenerator.Cell)
  {
    FeatureOf(c) == Some("foret")
  }

  /** The terrain test as intended: the cell's biome is forest. */
  predicate IsForest(c: MapGenerator.Cell)
  {
    c.biome == MapGenerator.Foret
  }

  function LumberjackCount(inhabitants: Option<Inhabitants.Counts>): int
  {
    Inhabitants.CountOf(inhabitants, "lumberjack")
  }

  /** The guard chain of `createMission` and the row it would add, with the
      terrain test given as `forest`. `village` and `inhabitants` are the
      caller's village and its inhabitant record; `minWork` and `maxWork` are
      the work-duration bounds; `stats` is the worker catalog. */
  function PlanMissionWith(forest: MapGenerator.Cell -> bool,
                           rows: seq<Mission>, village: Option<Villages.Village>,
                           inhabitants: Option<Inhabitants.Counts>,
                           grid: seq<seq<MapGenerator.Cell>>, stats: map<string, TypeStats>,
                           minWork: int, maxWork: int,
                           targetX: int, targetY: int, workSeconds: int, loop: bool, now: int)
    : (r: Result<Mission, CreateError>)
    ensures r == Err(InvalidWorkDuration) <==> workSeconds < minWork || workSeconds > maxWork
    ensures r == Err(VillageNotFound) <==> minWork <= workSeconds <= maxWork && village.None?
    ensures r == Err(TargetNotForest) <==>
      minWork <= workSeconds <= maxWork && village.Some?
      && !(TargetCell(grid, targetX, targetY).Some? && forest(TargetCell(grid, targetX, targetY).value))
    ensures r == Err(LumberjackStatsMissing) <==>
      minWork <= workSeconds <= maxWork && village.Some?
      && TargetCell(grid, targetX, targetY).Some? && forest(TargetCell(grid, targetX, targetY).value)
      && ("lumberjack" !in stats || stats["lumberjack"].speed <= 0)
    ensures r == Err(NoLumberjackAvailable) <==>
      minWork <= workSeconds <= maxWork && village.Some?
      && TargetCell(grid, targetX, targetY).Some? && forest(TargetCell(grid, targetX, targetY).value)
      && "lumberjack" in stats && stats["lumberjack"].speed > 0
      && LumberjackCount(inhabitants) - ActiveOfType(rows, village.value.id, "lumberjack", 0) <= 0
    ensures r == Err(TargetIsVillage) <==>
      minWork <= workSeconds <= maxWork && village.Some?
      && TargetCell(grid, targetX, targetY).Some? && forest(TargetCell(grid, targetX, targetY).value)
      && "lumberjack" in stats && stats["lumberjack"].speed > 0
      && LumberjackCount(inhabitants) - ActiveOfType(rows, village.value.id, "lumberjack", 0) > 0
      && village.value.x == targetX && village.value.y == targetY
    ensures r.Ok? ==>
      var v := village.value;
      var speed := stats["lumberjack"].speed;
      var d := Distance.ChebyshevDistance(v.x, v.y, targetX, targetY);
      && d > 0
      && r.value == Mission(|rows|, v.id, "lumberjack", targetX, targetY, now,
                            r.value.travelSeconds, workSeconds, None, None, loop)
      && r.value.travelSeconds * speed >= d * 3600
      && (r.value.travelSeconds - 1) * speed < d * 3600
      && r.value.travelSeconds > 0
  {
    if workSeconds < minWork || workSeconds > maxWork then Err(InvalidWorkDuration)
    else if village.None? then Err(VillageNotFound)
    else
      var cell := TargetCell(grid, targetX, targetY);
      if !(cell.Some? && forest(cell.value)) then Err(TargetNotForest)
      else if "lumberjack" !in stats || stats["lumberjack"].speed <= 0 then Err(LumberjackStatsMissing)
      else
        var v := village.value;
        var speed := stats["lumberjack"].speed;
        if LumberjackCount(inhabitants) - ActiveOfType(rows, v.id, "lumberjack", 0) <= 0 then Err(NoLumberjackAvailable)
        else
          var d := Distance.ChebyshevDistance(v.x, v.y, targetX, targetY);
          if d == 0 then Err(TargetIsVillage)
          else
            var travel := Distance.ComputeTravelSeconds(d, speed).value;
            Ok(Mission(|rows|, v.id, "lumberjack", targetX, targetY, now, travel, workSeconds, None, None, loop))
  }

  /** `createMission` as written: the terrain test reads the missing `feature` field. */
  function PlanMissionAsWritten(rows: seq<Mission>, village: Option<Villages.Village>,
                                inhabitants: Option<Inhabitants.Counts>,
                                grid: seq<seq<MapGenerator.Cell>>, stats: map<string, TypeStats>,
                                minWork: int, maxWork: int,
                                targetX: int, targetY: int, workSeconds: int, loop: bool, now: int)
    : Result<Mission, CreateError>
  {
    PlanMissionWith(IsForestAsWritten, rows, village, inhabitants, grid, stats, minWork, maxWork,
                    targetX, targetY, workSeconds, loop, now)
  }

  /** `createMission` with the terrain test on the cell's biome. */
  function PlanMission(rows: seq<Mission>, village: Option<Villages.Village>,
                       inhabitants: Option<Inhabitants.Counts>,
                       grid: seq<seq<MapGenerator.Cell>>, stats: map<string, TypeStats>,
                       minWork: int, maxWork: int,
                       targetX: int, targetY: int, workSeconds: int, loop: bool, now: int)
    : Result<Mission, CreateError>
  {
    PlanMissionWith(IsForest, rows, village, inhabitants, grid, stats, minWork, maxWork,
                    targetX, targetY, workSeconds, loop, now)
  }

  /** As written, no mission can ever be created: every request that passes the
      duration and village checks is refused as "not a forest". */
  lemma CreateMissionAsWrittenNeverSucceeds(rows: seq<Mission>, village: Option<Villages.Village>,
                                             inhabitants: Option<Inhabitants.Counts>,
                                             grid: seq<seq<MapGenerator.Cell>>, stats: map<string, TypeStats>,
                                             minWork: int, maxWork: int,
                                             targetX: int, targetY: int, workSeconds: int, loop: bool, now: int)
    ensures var r := PlanMissionAsWritten(rows, village, inhabitants, grid, stats, minWork, maxWork,
                                          targetX, targetY, workSeconds, loop, now);
            && r.Err?
            && (minWork <= workSeconds <= maxWork && village.Some? ==> r == Err(TargetNotForest))
  {
  }

  /** With the biome test, a request on a forest cell that passes the other
      checks creates a mission, and the created mission leaves at `now`, is
      outbound and recallable at that instant, and occupies one more lumberjack. */
  lemma CreatedMissionStartsOutbound(rows: seq<Mission>, village: Option<Villages.Village>,
                                     inhabitants: Option<Inhabitants.Counts>,
                                     grid: seq<seq<MapGenerator.Cell>>, stats: map<string, TypeStats>,
                                     minWork: int, maxWork: int,
                                     targetX: int, targetY: int, workSeconds: int, loop: bool, now: int,
                                     typeStats: TypeStats)
    requires PlanMission(rows, village, inhabitants, grid, stats, minWork, maxWork,
                         targetX, targetY, workSeconds, loop, now).Ok?
    ensures var m := PlanMission(rows, village, inhabitants, grid, stats, minWork, maxWork,
                                 targetX, targetY, workSeconds, loop, now).value;
            var s := MissionStatus.ComputeMissionStatus(DataOf(m, typeStats), now);
            && IsForest(grid[targetY][targetX])
            && s.phase == MissionStatus.TravelingTo && s.canRecall
            && ActiveOfType(rows + [m], m.villageId, "lumberjack", 0) == ActiveOfType(rows, m.villageId, "lumberjack", 0) + 1
  {
    var m := PlanMission(rows, village, inhabitants, grid, stats, minWork, maxWork,
                         targetX, targetY, workSeconds, loop, now).value;
    ActiveOfTypeAppend(rows, m, m.villageId, "lumberjack", 0);
  }

  /** The owner of a mission's village. The foreign key makes the village exist;
      a dangling id reads as not owned. */
  function OwnerOf(villages: seq<Villages.Village>, villageId: nat): Option<string>
  {
    if villageId < |villages| then Some(villages[villageId].ownerId) else None
  }

  datatype RecallError = MissionNotFound | NotOwner | AlreadyRecalled | NotTravelingTo

  /** The guard chain of `recallMission`. */
  function CheckRecall(rows: seq<Mission>, villages: seq<Villages.Village>, userId: string,
                       missionId: nat, now: int): (r: Result<Mission, RecallError>)
    ensures r == Err(MissionNotFound) <==> missionId >= |rows|
    ensures r == Err(NotOwner) <==>
      missionId < |rows| && OwnerOf(villages, rows[missionId].villageId) != Some(userId)
    ensures r == Err(AlreadyRecalled) <==>
      missionId < |rows| && OwnerOf(villages, rows[missionId].villageId) == Some(userId)
      && rows[missionId].recalledAt.Some?
    ensures r == Err(NotTravelingTo) <==>
      missionId < |rows| && OwnerOf(villages, rows[missionId].villageId) == Some(userId)
      && rows[missionId].recalledAt.None?
      && now >= rows[missionId].departedAt + rows[missionId].travelSeconds * 1000
    ensures r.Ok? ==> r.value == rows[missionId].(recalledAt := Some(now))
  {
    if missionId >= |rows| then Err(MissionNotFound)
    else
      var m := rows[missionId];
      if OwnerOf(villages, m.villageId) != Some(userId) then Err(NotOwner)
      else if m.recalledAt.Some? then Err(AlreadyRecalled)
      else if now >= m.departedAt + m.travelSeconds * 1000 then Err(NotTravelingTo)
      else Ok(m.(recalledAt := Some(now)))
  }

  /** A recall is accepted only while the mission is outbound, and afterwards
      the mission projects nothing, can no longer be recalled, and heads home
      (or is home at once when recalled at the very instant it left). */
  lemma RecallOnlyWhileOutbound(rows: seq<Mission>, villages: seq<Villages.Village>, userId: string,
                                missionId: nat, now: int, typeStats: TypeStats)
    requires CheckRecall(rows, villages, userId, missionId, now).Ok?
    ensures var before := MissionStatus.ComputeMissionStatus(DataOf(rows[missionId], typeStats), now);
            var after := MissionStatus.ComputeMissionStatus(
                           DataOf(CheckRecall(rows, villages, userId, missionId, now).value, typeStats), now);
            && before.phase == MissionStatus.TravelingTo && before.canRecall
            && after.projectedResource == 0 && !after.canRecall
            && (now > rows[missionId].departedAt ==> after.phase == MissionStatus.TravelingBack)
            && (now <= rows[missionId].departedAt ==> after.phase == MissionStatus.Completed)
  {
    var m := CheckRecall(rows, villages, userId, missionId, now).value;
    MissionStatus.RecalledPhaseWindows(DataOf(m, typeStats), now);
  }

  /** A recall cuts the trip short: the workers are home before the unrecalled
      mission would have been, by at least the work time. */
  lemma RecallShortensTrip(m: Mission, r: int, typeStats: TypeStats)
    requires m.recalledAt.None? && m.workSeconds >= 0
    requires r < m.departedAt + m.travelSeconds * 1000
    ensures MissionStatus.ArriveHome(DataOf(m.(recalledAt := Some(r)), typeStats))
            < MissionStatus.ArriveHome(DataOf(m, typeStats)) - m.workSeconds * 1000
  {
  }

  datatype ToggleError = ToggleNotFound | ToggleNotOwner | AlreadyCompleted

  /** The guard chain of `toggleMissionLoop` and the updated row. */
  function CheckToggle(rows: seq<Mission>, villages: seq<Villages.Village>, userId: string,
                       missionId: nat): (r: Result<Mission, ToggleError>)
    ensures r == Err(ToggleNotFound) <==> missionId >= |rows|
    ensures r == Err(ToggleNotOwner) <==>
      missionId < |rows| && OwnerOf(villages, rows[missionId].villageId) != Some(userId)
    ensures r == Err(AlreadyCompleted) <==>
      missionId < |rows| && OwnerOf(villages, rows[missionId].villageId) == Some(userId)
      && rows[missionId].completedAt.Some?
    ensures r.Ok? ==> r.value.loop != rows[missionId].loop && r.value.(loop := rows[missionId].loop) == rows[missionId]
  {
    if missionId >= |rows| then Err(ToggleNotFound)
    else
      var m := rows[missionId];
      if OwnerOf(villages, m.villageId) != Some(userId) then Err(ToggleNotOwner)
      else if m.completedAt.Some? then Err(AlreadyCompleted)
      else Ok(m.(loop := !m.loop))
  }

  /** Toggling twice restores the table. */
  lemma ToggleTwiceRestores(rows: seq<Mission>, villages: seq<Villages.Village>, userId: string, missionId: nat)
    requires CheckToggle(rows, villages, userId, missionId).Ok?
    ensures var once := rows[missionId := CheckToggle(rows, villages, userId, missionId).value];
            && CheckToggle(once, villages, userId, missionId).Ok?
            && once[missionId := CheckToggle(once, villages, userId, missionId).value] == rows
  {
  }

  /** The mission table. */
  class MissionTable {
    var rows: seq<Mission>

    /** Ids are positions, and a recall instant always lies before the arrival
        at the target. */
    ghost predicate Valid()
      reads this
    {
      forall i :: 0 <= i < |rows| ==>
        rows[i].id == i
        && (rows[i].recalledAt.Some? ==>
              rows[i].recalledAt.value < rows[i].departedAt + rows[i].travelSeconds * 1000)
    }

    constructor ()
      ensures Valid() && rows == []
    {
      rows := [];
    }

    /** `createMission`, with the terrain test on the biome; it generates the world map to look up the target. */
    method CreateMission(village: Option<Villages.Village>, inhabitants: Option<Inhabitants.Counts>,
                         stats: map<string, TypeStats>, minWork: int, maxWork: int,
                         targetX: int, targetY: int, workSeconds: int, loop: bool, now: int)
      returns (r: Result<nat, CreateError>)
      requires Valid()
      modifies this
      ensures Valid()
      ensures var plan := PlanMission(old(rows), village, inhabitants, MapGenerator.WorldMap(), stats,
                                      minWork, maxWork, targetX, targetY, workSeconds, loop, now);
              && (plan.Err? ==> r == Err(plan.error) && rows == old(rows))
              && (plan.Ok? ==> r == Ok(|old(rows)|) && rows == old(rows) + [plan.value])
    {
      var worldMap := MapGenerator.GenerateWorldMap();
      var plan := PlanMission(rows, village, inhabitants, worldMap, stats,
                              minWork, maxWork, targetX, targetY, workSeconds, loop, now);
      if plan.Err? {
        return Err(plan.error);
      }
      rows := rows + [plan.value];
      r := Ok(|rows| - 1);
    }

    /** `recallMission`. */
    method RecallMission(villages: seq<Villages.Village>, userId: string, missionId: nat, now: int)
      returns (r: Result<(), RecallError>)
      requires Valid()
      modifies this
      ensures Valid()
      ensures var c := CheckRecall(old(rows), villages, userId, missionId, now);
              && (c.Err? ==> r == Err(c.error) && rows == old(rows))
              && (c.Ok? ==> r.Ok? && rows == old(rows)[missionId := c.value])
    {
      var c := CheckRecall(rows, villages, userId, missionId, now);
      if c.Err? {
        return Err(c.error);
      }
      rows := rows[missionId := c.value];
      r := Ok(());
    }

    /** `toggleMissionLoop`: returns the new flag. */
    method ToggleMissionLoop(villages: seq<Villages.Village>, userId: string, missionId: nat)
      returns (r: Result<bool, ToggleError>)
      requires Valid()
      modifies this
      ensures Valid()
      ensures var c := CheckToggle(old(rows), villages, userId, missionId);
              && (c.Err? ==> r == Err(c.error) && rows == old(rows))
              && (c.Ok? ==> r == Ok(c.value.loop) && rows == old(rows)[missionId := c.value])
    {
      var c := CheckToggle(rows, villages, userId, missionId);
      if c.Err? {
        return Err(c.error);
      }
      rows := rows[missionId := c.value];
      r := Ok(c.value.loop);
    }
  }
}
