/** The lazy completion sweep (lib/game/missions/complete-missions.ts): every
    unfinished mission of a village whose status has reached completed is
    stamped with `now`, and what it brought back is credited to the village's
    wood counter. */
module MissionSweep {
  import opened Wrappers
  import MissionStatus
  import Missions
  import Resources

  /** `stats[type] ?? { speed: 0, gatherRate: 0, maxCapacity: 0 }`. */
  function StatsOf(stats: map<string, Missions.TypeStats>, t: string): Missions.TypeStats
  {
    if t in stats then stats[t] else Missions.TypeStats(0, 0, 0)
  }

  /** A mission the sweep completes: unfinished, of this village, and completed at `now`. */
  predicate Due(m: Missions.Mission, villageId: nat, stats: map<string, Missions.TypeStats>, now: int)
  {
    m.villageId == villageId && m.completedAt.None?
    && MissionStatus.ComputeMissionStatus(Missions.DataOf(m, StatsOf(stats, m.inhabitantType)), now).phase
       == MissionStatus.Completed
  }

  /** What a finished mission brought back: nothing after a recall, otherwise the capped yield. */
  function Gathered(m: Missions.Mission, stats: map<string, Missions.TypeStats>): int
  {
    if m.recalledAt.Some? then 0
    else
      var s := StatsOf(stats, m.inhabitantType);
      MissionStatus.Yield(m.workSeconds, s.gatherRate, s.maxCapacity)
  }

  /** Wood the sweep credits for one mission; only positive amounts are written. */
  function Credit(m: Missions.Mission, villageId: nat, stats: map<string, Missions.TypeStats>, now: int): (c: nat)
    ensures c > 0 ==> Due(m, villageId, stats, now) && m.recalledAt.None? && c == Gathered(m, stats)
    ensures Due(m, villageId, stats, now) && m.recalledAt.None? && Gathered(m, stats) > 0 ==> c == Gathered(m, stats)
  {
    if Due(m, villageId, stats, now) && Gathered(m, stats) > 0 then Gathered(m, stats) else 0
  }

  function SweptMission(m: Missions.Mission, villageId: nat, stats: map<string, Missions.TypeStats>, now: int): Missions.Mission
  {
    if Due(m, villageId, stats, now) then m.(completedAt := Some(now)) else m
  }

  /** The table after a sweep. */
  function SweptRows(rows: seq<Missions.Mission>, villageId: nat, stats: map<string, Missions.TypeStats>, now: int)
    : (out: seq<Missions.Mission>)
    ensures |out| == |rows|
    ensures forall i :: 0 <= i < |rows| ==> out[i] == SweptMission(rows[i], villageId, stats, now)
  {
    seq(|rows|, i requires 0 <= i < |rows| => SweptMission(rows[i], villageId, stats, now))
  }

  /** Total wood a sweep credits. */
  function TotalCredit(rows: seq<Missions.Mission>, villageId: nat, stats: map<string, Missions.TypeStats>, now: int): nat
  {
    if rows == [] then 0
    else TotalCredit(rows[..|rows| - 1], villageId, stats, now) + Credit(rows[|rows| - 1], villageId, stats, now)
  }

  /** Nothing is credited when no mission is due. */
  lemma {:induction false} NoDueNoCredit(rows: seq<Missions.Mission>, villageId: nat, stats: map<string, Missions.TypeStats>, now: int)
    requires forall i :: 0 <= i < |rows| ==> !Due(rows[i], villageId, stats, now)
    ensures TotalCredit(rows, villageId, stats, now) == 0
  {
    if rows != [] {
      var init := rows[..|rows| - 1];
      assert forall i :: 0 <= i < |init| ==> init[i] == rows[i];
      NoDueNoCredit(init, villageId, stats, now);
    }
  }

  /** A second sweep at the same instant changes nothing and credits nothing. */
  lemma SweepIdempotent(rows: seq<Missions.Mission>, villageId: nat, stats: map<string, Missions.TypeStats>, now: int)
    ensures var once := SweptRows(rows, villageId, stats, now);
            && SweptRows(once, villageId, stats, now) == once
            && TotalCredit(once, villageId, stats, now) == 0
  {
    var once := SweptRows(rows, villageId, stats, now);
    assert forall i :: 0 <= i < |once| ==> !Due(once[i], villageId, stats, now);
    NoDueNoCredit(once, villageId, stats, now);
  }

  /** Missions already finished, or of another village, are left as they are. */
  lemma SweepLeavesOthers(rows: seq<Missions.Mission>, villageId: nat, stats: map<string, Missions.TypeStats>, now: int, i: nat)
    requires i < |rows|
    requires rows[i].completedAt.Some? || rows[i].villageId != villageId
    ensures SweptRows(rows, villageId, stats, now)[i] == rows[i]
    ensures Credit(rows[i], villageId, stats, now) == 0
  {
  }

  /** Recalled missions, and missions of a type the catalog lacks, credit nothing. */
  lemma NothingFromRecalledOrUnknown(m: Missions.Mission, villageId: nat, stats: map<string, Missions.TypeStats>, now: int)
    requires m.recalledAt.Some? || m.inhabitantType !in stats
    ensures Credit(m, villageId, stats, now) == 0
  {
  }

  lemma SweepSnoc(rows: seq<Missions.Mission>, m: Missions.Mission, villageId: nat,
                  stats: map<string, Missions.TypeStats>, now: int)
    ensures SweptRows(rows + [m], villageId, stats, now)
            == SweptRows(rows, villageId, stats, now) + [SweptMission(m, villageId, stats, now)]
    ensures TotalCredit(rows + [m], villageId, stats, now)
            == TotalCredit(rows, villageId, stats, now) + Credit(m, villageId, stats, now)
  {
    assert (rows + [m])[..|rows|] == rows;
  }

  /** The sweep keeps ids and recall instants, hence the table invariant. */
  lemma SweepKeepsValid(rows: seq<Missions.Mission>, villageId: nat, stats: map<string, Missions.TypeStats>, now: int)
    requires forall i :: 0 <= i < |rows| ==>
               rows[i].id == i
               && (rows[i].recalledAt.Some? ==> rows[i].recalledAt.value < rows[i].departedAt + rows[i].travelSeconds * 1000)
    ensures var out := SweptRows(rows, villageId, stats, now);
            forall i :: 0 <= i < |out| ==>
               out[i].id == i
               && (out[i].recalledAt.Some? ==> out[i].recalledAt.value < out[i].departedAt + out[i].travelSeconds * 1000)
  {
  }

  /** One iteration of the sweep: completes mission `i` if it is due and credits its wood. */
  method SweepOne(table: Missions.MissionTable, res: Resources.ResourcesRecord, i: nat, villageId: nat,
                  stats: map<string, Missions.TypeStats>, now: int)
    requires i < |table.rows|
    modifies table, res
    ensures table.rows == old(table.rows)[i := SweptMission(old(table.rows[i]), villageId, stats, now)]
    ensures res.bois == old(res.bois) + Credit(old(table.rows[i]), villageId, stats, now)
    ensures res.pierre == old(res.pierre) && res.cereales == old(res.cereales)
    ensures res.viande == old(res.viande) && res.lastConsumptionAt == old(res.lastConsumptionAt)
  {
    var m := table.rows[i];
    if m.villageId != villageId || m.completedAt.Some? {
      return;
    }
    var s := StatsOf(stats, m.inhabitantType);
    var status := MissionStatus.ComputeMissionStatus(Missions.DataOf(m, s), now);
    if status.phase != MissionStatus.Completed {
      return;
    }
    var gathered := if m.recalledAt.Some? then 0 else MissionStatus.Yield(m.workSeconds, s.gatherRate, s.maxCapacity);
    table.rows := table.rows[i := m.(completedAt := Some(now))];
    if gathered > 0 {
      res.bois := res.bois + gathered;
    }
  }

  /** Completing mission `i` of a table swept up to `i` gives the table swept up to `i + 1`. */
  lemma SweepStep(rows: seq<Missions.Mission>, i: nat, villageId: nat, stats: map<string, Missions.TypeStats>, now: int)
    requires i < |rows|
    ensures (SweptRows(rows[..i], villageId, stats, now) + rows[i..])[i := SweptMission(rows[i], villageId, stats, now)]
            == SweptRows(rows[..i + 1], villageId, stats, now) + rows[i + 1..]
    ensures (SweptRows(rows[..i], villageId, stats, now) + rows[i..])[i] == rows[i]
    ensures TotalCredit(rows[..i + 1], villageId, stats, now)
            == TotalCredit(rows[..i], villageId, stats, now) + Credit(rows[i], villageId, stats, now)
  {
    assert rows[..i + 1] == rows[..i] + [rows[i]];
    SweepSnoc(rows[..i], rows[i], villageId, stats, now);
    assert rows[i..] == [rows[i]] + rows[i + 1..];
  }

  /** The loop of `completePendingMissions`: every mission of the table, in order. */
  method SweepMissions(table: Missions.MissionTable, res: Resources.ResourcesRecord, villageId: nat,
                       stats: map<string, Missions.TypeStats>, now: int)
    modifies table, res
    ensures table.rows == SweptRows(old(table.rows), villageId, stats, now)
    ensures res.bois == old(res.bois) + TotalCredit(old(table.rows), villageId, stats, now)
    ensures res.pierre == old(res.pierre) && res.cereales == old(res.cereales)
    ensures res.viande == old(res.viande) && res.lastConsumptionAt == old(res.lastConsumptionAt)
  {
    ghost var rows0 := table.rows;
    ghost var bois0 := res.bois;
    var n := |table.rows|;
    for i := 0 to n
      invariant table.rows == SweptRows(rows0[..i], villageId, stats, now) + rows0[i..]
      invariant res.bois == bois0 + TotalCredit(rows0[..i], villageId, stats, now)
      invariant res.pierre == old(res.pierre) && res.cereales == old(res.cereales)
      invariant res.viande == old(res.viande) && res.lastConsumptionAt == old(res.lastConsumptionAt)
    {
      SweepStep(rows0, i, villageId, stats, now);
      SweepOne(table, res, i, villageId, stats, now);
    }
    assert rows0[..n] == rows0;
  }

  /** `completePendingMissions` for village `villageId`, crediting its resources record `res`. */
  method CompletePendingMissions(table: Missions.MissionTable, res: Resources.ResourcesRecord, villageId: nat,
                                 stats: map<string, Missions.TypeStats>, now: int)
    requires table.Valid()
    modifies table, res
    ensures table.Valid()
    ensures table.rows == SweptRows(old(table.rows), villageId, stats, now)
    ensures res.Value() == old(res.Value()).(bois := old(res.bois) + TotalCredit(old(table.rows), villageId, stats, now))
  {
    SweepKeepsValid(table.rows, villageId, stats, now);
    SweepMissions(table, res, villageId, stats, now);
  }

  /** The worked example: one lumberjack mission 18000 s each way with an hour
      of work; swept once it is home, it credits 10 wood, and a sweep a second
      later credits nothing. */
  lemma ConcreteSweep(departedAt: int, villageId: nat)
    ensures var m := Missions.Mission(0, villageId, "lumberjack", 60, 50, departedAt, 18000, 3600, None, None, false);
            var stats := map["lumberjack" := Missions.TypeStats(2, 10, 30)];
            var home := departedAt + 39600 * 1000;
            var once := SweptRows([m], villageId, stats, home);
            && TotalCredit([m], villageId, stats, home) == 10
            && once == [m.(completedAt := Some(home))]
            && TotalCredit(once, villageId, stats, home + 1000) == 0
  {
    var m := Missions.Mission(0, villageId, "lumberjack", 60, 50, departedAt, 18000, 3600, None, None, false);
    var stats := map["lumberjack" := Missions.TypeStats(2, 10, 30)];
    var home := departedAt + 39600 * 1000;
    MissionStatus.ConcreteLumberjackMission(departedAt);
    assert [m][..0] == [];
    var once := SweptRows([m], villageId, stats, home);
    assert once[..0] == [];
    assert !Due(once[0], villageId, stats, home + 1000);
  }
}
