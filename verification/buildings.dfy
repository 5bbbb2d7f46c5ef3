/** Construction: paying for and starting a building
    (lib/game/buildings/start-building.ts) and the lazy completion sweep that
    grants its capacity bonus (lib/game/buildings/complete-pending-buildings.ts).
    A building's id is its position in the table. */
module Buildings {
  import opened Wrappers
  import Resources
  import Villages

  /** A row of the building catalog. */
  datatype BuildingType = BuildingType(
    key: string,
    costBois: int,
    costPierre: int,
    costCereales: int,
    costViande: int,
    buildSeconds: int,
    capacityBonus: int)

  datatype Building = Building(
    id: nat,
    villageId: nat,
    buildingType: string,
    buildSeconds: int,
    startedAt: int,
    completedAt: Option<int>)

  /** No counter is below its cost. */
  predicate CanAfford(res: Resources.Ledger, t: BuildingType)
  {
    res.bois >= t.costBois && res.pierre >= t.costPierre
    && res.cereales >= t.costCereales && res.viande >= t.costViande
  }

  /** The four decrements of the start transaction. */
  function Debit(res: Resources.Ledger, t: BuildingType): (r: Resources.Ledger)
    ensures r.bois + t.costBois == res.bois && r.pierre + t.costPierre == res.pierre
    ensures r.cereales + t.costCereales == res.cereales && r.viande + t.costViande == res.viande
    ensures r.lastConsumptionAt == res.lastConsumptionAt
    ensures CanAfford(res, t) ==> r.bois >= 0 && r.pierre >= 0 && r.cereales >= 0 && r.viande >= 0
  {
    res.(bois := res.bois - t.costBois, pierre := res.pierre - t.costPierre,
         cereales := res.cereales - t.costCereales, viande := res.viande - t.costViande)
  }

  datatype StartError = VillageNotFound | UnknownBuildingType | InsufficientResources

  /** The guard chain of `startBuilding`. `villageId` is the caller's village and
      `res` its resources record, each None when missing. */
  function CheckStart(villageId: Option<nat>, res: Option<Resources.Ledger>,
                      catalog: map<string, BuildingType>, key: string): (r: Result<BuildingType, StartError>)
    ensures r == Err(VillageNotFound) <==> villageId.None? || res.None?
    ensures r == Err(UnknownBuildingType) <==> villageId.Some? && res.Some? && key !in catalog
    ensures r == Err(InsufficientResources) <==>
      villageId.Some? && res.Some? && key in catalog && !CanAfford(res.value, catalog[key])
    ensures r.Ok? ==> key in catalog && r.value == catalog[key] && CanAfford(res.value, r.value)
  {
    if villageId.None? || res.None? then Err(VillageNotFound)
    else if key !in catalog then Err(UnknownBuildingType)
    else if !CanAfford(res.value, catalog[key]) then Err(InsufficientResources)
    else Ok(catalog[key])
  }

  /** A construction the sweep completes: unfinished, of this village, and its
      time elapsed. `(now - startedAt) / 1000 < buildSeconds` is compared exactly. */
  predicate Due(b: Building, villageId: nat, now: int)
  {
    b.villageId == villageId && b.completedAt.None? && now - b.startedAt >= b.buildSeconds * 1000
  }

  /** `buildingType?.capacityBonus ?? 0`. */
  function BonusOf(catalog: map<string, BuildingType>, key: string): int
  {
    if key in catalog then catalog[key].capacityBonus else 0
  }

  /** Capacity one building adds; only positive bonuses are written. */
  function CapacityCredit(b: Building, villageId: nat, catalog: map<string, BuildingType>, now: int): (c: nat)
    ensures c > 0 ==> Due(b, villageId, now) && b.buildingType in catalog
                      && c == catalog[b.buildingType].capacityBonus
    ensures Due(b, villageId, now) && b.buildingType in catalog && catalog[b.buildingType].capacityBonus > 0
            ==> c == catalog[b.buildingType].capacityBonus
  {
    if Due(b, villageId, now) && BonusOf(catalog, b.buildingType) > 0 then BonusOf(catalog, b.buildingType) else 0
  }

  function SweptBuilding(b: Building, villageId: nat, now: int): Building
  {
    if Due(b, villageId, now) then b.(completedAt := Some(now)) else b
  }

  function SweptBuildings(rows: seq<Building>, villageId: nat, now: int): (out: seq<Building>)
    ensures |out| == |rows|
    ensures forall i :: 0 <= i < |rows| ==> out[i] == SweptBuilding(rows[i], villageId, now)
  {
    seq(|rows|, i requires 0 <= i < |rows| => SweptBuilding(rows[i], villageId, now))
  }

  /** Total capacity a sweep adds. */
  function CapacityGain(rows: seq<Building>, villageId: nat, catalog: map<string, BuildingType>, now: int): nat
  {
    if rows == [] then 0
    else CapacityGain(rows[..|rows| - 1], villageId, catalog, now) + CapacityCredit(rows[|rows| - 1], villageId, catalog, now)
  }

  lemma {:induction false} NoDueNoGain(rows: seq<Building>, villageId: nat, catalog: map<string, BuildingType>, now: int)
    requires forall i :: 0 <= i < |rows| ==> !Due(rows[i], villageId, now)
    ensures CapacityGain(rows, villageId, catalog, now) == 0
  {
    if rows != [] {
      var init := rows[..|rows| - 1];
      assert forall i :: 0 <= i < |init| ==> init[i] == rows[i];
      NoDueNoGain(init, villageId, catalog, now);
    }
  }

  /** A second sweep at the same instant changes nothing and adds no capacity. */
  lemma BuildingSweepIdempotent(rows: seq<Building>, villageId: nat, catalog: map<string, BuildingType>, now: int)
    ensures var once := SweptBuildings(rows, villageId, now);
            && SweptBuildings(once, villageId, now) == once
            && CapacityGain(once, villageId, catalog, now) == 0
  {
    var once := SweptBuildings(rows, villageId, now);
    assert forall i :: 0 <= i < |once| ==> !Due(once[i], villageId, now);
    NoDueNoGain(once, villageId, catalog, now);
  }

  lemma BuildingSweepStep(rows: seq<Building>, i: nat, villageId: nat, catalog: map<string, BuildingType>, now: int)
    requires i < |rows|
    ensures (SweptBuildings(rows[..i], villageId, now) + rows[i..])[i := SweptBuilding(rows[i], villageId, now)]
            == SweptBuildings(rows[..i + 1], villageId, now) + rows[i + 1..]
    ensures (SweptBuildings(rows[..i], villageId, now) + rows[i..])[i] == rows[i]
    ensures CapacityGain(rows[..i + 1], villageId, catalog, now)
            == CapacityGain(rows[..i], villageId, catalog, now) + CapacityCredit(rows[i], villageId, catalog, now)
  {
    var pre := rows[..i];
    assert rows[..i + 1] == pre + [rows[i]];
    assert (pre + [rows[i]])[..i] == pre;
    assert rows[i..] == [rows[i]] + rows[i + 1..];
  }

  /** The seeded wooden hut: 50 wood, 30 seconds, one more place. It completes
      exactly 30 seconds after it starts. */
  lemma WoodenHut(startedAt: int, villageId: nat, now: int)
    ensures var hut := BuildingType("cabane_en_bois", 50, 0, 0, 0, 30, 1);
            var b := Building(0, villageId, "cabane_en_bois", 30, startedAt, None);
            var catalog := map["cabane_en_bois" := hut];
            && (CapacityCredit(b, villageId, catalog, now) == 1 <==> now >= startedAt + 30000)
            && (CheckStart(Some(villageId), Some(Resources.Ledger(49, 0, 0, 0, 0)), catalog, "cabane_en_bois")
                == Err(InsufficientResources))
            && CheckStart(Some(villageId), Some(Resources.Ledger(50, 0, 0, 0, 0)), catalog, "cabane_en_bois").Ok?
  {
  }

  /** The village table with `delta` added to village `k`'s capacity. */
  function AddCapacity(vrows: seq<Villages.Village>, k: nat, delta: int): (out: seq<Villages.Village>)
    requires k < |vrows|
    ensures |out| == |vrows|
    ensures out[k] == vrows[k].(capacity := vrows[k].capacity + delta)
    ensures forall i :: 0 <= i < |vrows| && i != k ==> out[i] == vrows[i]
  {
    vrows[k := vrows[k].(capacity := vrows[k].capacity + delta)]
  }

  lemma AddCapacityTwice(vrows: seq<Villages.Village>, k: nat, a: int, b: int)
    requires k < |vrows|
    ensures AddCapacity(AddCapacity(vrows, k, a), k, b) == AddCapacity(vrows, k, a + b)
  {
  }

  /** The building table. */
  class BuildingTable {
    var rows: seq<Building>

    ghost predicate Valid()
      reads this
    {
      forall i :: 0 <= i < |rows| ==> rows[i].id == i
    }

    constructor ()
      ensures Valid() && rows == []
    {
      rows := [];
    }

    /** `startBuilding` for the caller's village `villageId`; `res` is null when
        the village has no resources record. */
    method StartBuilding(villageId: Option<nat>, res: Resources.ResourcesRecord?,
                         catalog: map<string, BuildingType>, key: string, now: int)
      returns (r: Result<(), StartError>)
      requires Valid()
      modifies this, res
      ensures Valid()
      ensures var c := CheckStart(villageId, if res == null then None else Some(old(res.Value())), catalog, key);
              && (c.Err? ==> r == Err(c.error) && rows == old(rows) && (res != null ==> res.Value() == old(res.Value())))
              && (c.Ok? ==> r.Ok? && res != null
                            && res.Value() == Debit(old(res.Value()), c.value)
                            && rows == old(rows) + [Building(|old(rows)|, villageId.value, key, c.value.buildSeconds, now, None)])
    {
      var c := CheckStart(villageId, if res == null then None else Some(res.Value()), catalog, key);
      if c.Err? {
        return Err(c.error);
      }
      var t := c.value;
      res.bois := res.bois - t.costBois;
      res.pierre := res.pierre - t.costPierre;
      res.cereales := res.cereales - t.costCereales;
      res.viande := res.viande - t.costViande;
      rows := rows + [Building(|rows|, villageId.value, key, t.buildSeconds, now, None)];
      r := Ok(());
    }

    /** One iteration of the completion sweep. */
    method CompleteOne(villages: Villages.VillageTable, i: nat, villageId: nat,
                       catalog: map<string, BuildingType>, now: int)
      requires i < |rows| && villageId < |villages.rows|
      modifies this, villages
      ensures rows == old(rows)[i := SweptBuilding(old(rows[i]), villageId, now)]
      ensures villages.rows == AddCapacity(old(villages.rows), villageId, CapacityCredit(old(rows[i]), villageId, catalog, now))
    {
      var b := rows[i];
      if b.villageId != villageId || b.completedAt.Some? {
        return;
      }
      if now - b.startedAt < b.buildSeconds * 1000 {
        return;
      }
      var capacityBonus := BonusOf(catalog, b.buildingType);
      rows := rows[i := b.(completedAt := Some(now))];
      if capacityBonus > 0 {
        var v := villages.rows[villageId];
        villages.rows := villages.rows[villageId := v.(capacity := v.capacity + capacityBonus)];
      }
    }

    /** The loop of `completePendingBuildings`. */
    method SweepBuildings(villages: Villages.VillageTable, villageId: nat,
                          catalog: map<string, BuildingType>, now: int)
      requires villageId < |villages.rows|
      modifies this, villages
      ensures rows == SweptBuildings(old(rows), villageId, now)
      ensures villages.rows == AddCapacity(old(villages.rows), villageId, CapacityGain(old(rows), villageId, catalog, now))
    {
      ghost var rows0 := rows;
      ghost var vrows0 := villages.rows;
      var n := |rows|;
      for i := 0 to n
        invariant rows == SweptBuildings(rows0[..i], villageId, now) + rows0[i..]
        invariant villages.rows == AddCapacity(vrows0, villageId, CapacityGain(rows0[..i], villageId, catalog, now))
      {
        BuildingSweepStep(rows0, i, villageId, catalog, now);
        AddCapacityTwice(vrows0, villageId, CapacityGain(rows0[..i], villageId, catalog, now),
                         CapacityCredit(rows0[i], villageId, catalog, now));
        CompleteOne(villages, i, villageId, catalog, now);
      }
      assert rows0[..n] == rows0;
    }

    /** `completePendingBuildings` for the existing village `villageId`. */
    method CompletePendingBuildings(villages: Villages.VillageTable, villageId: nat,
                                    catalog: map<string, BuildingType>, now: int)
      requires Valid() && villages.Valid() && villageId < |villages.rows|
      modifies this, villages
      ensures Valid() && villages.Valid()
      ensures rows == SweptBuildings(old(rows), villageId, now)
      ensures villages.rows == old(villages.rows)[villageId := old(villages.rows[villageId]).(
                capacity := old(villages.rows[villageId].capacity) + CapacityGain(old(rows), villageId, catalog, now))]
    {
      ghost var vrows0 := villages.rows;
      ghost var gain := CapacityGain(rows, villageId, catalog, now);
      SweepBuildings(villages, villageId, catalog, now);
      Villages.CapacityKeepsValid(vrows0, villageId, vrows0[villageId].capacity + gain);
    }
  }
}
