/** Inhabitant counts per village: the worker types, the free-worker count,
    and the create-or-increment of a village's inhabitant record
    (lib/game/inhabitants). */
module Inhabitants {
  import opened Wrappers

  /** `INHABITANT_TYPES`, in display order. */
  const INHABITANT_TYPES: seq<string> := [
    "lumberjack", "miner", "explorer", "hunter", "gatherer",
    "breeder", "farmer", "researcher", "builder"
  ]

  /** A village's inhabitant record: one count per worker type. */
  type Counts = map<string, int>

  /** `record[type] ?? 0`, with a missing record counting as all zeroes. */
  function CountOf(rec: Option<Counts>, t: string): int
  {
    if rec.Some? && t in rec.value then rec.value[t] else 0
  }

  /** Sum of the counts of `types`, as the `reduce` over `INHABITANT_TYPES`. */
  function SumOver(types: seq<string>, rec: Option<Counts>): (n: int)
    ensures rec.None? ==> n == 0
    ensures (forall i :: 0 <= i < |types| ==> CountOf(rec, types[i]) >= 0) ==> n >= 0
  {
    if types == [] then 0 else CountOf(rec, types[0]) + SumOver(types[1..], rec)
  }

  /** The village population: zero without a record, never negative when no count is. */
  function TotalInhabitants(rec: Option<Counts>): (n: int)
    ensures rec.None? ==> n == 0
    ensures (forall t :: t in INHABITANT_TYPES ==> CountOf(rec, t) >= 0) ==> n >= 0
  {
    SumOver(INHABITANT_TYPES, rec)
  }

  /** The record created for a village that had none: one worker of `t`, every other field at its default 0. */
  function NewRecord(t: string): (c: Counts)
    requires t in INHABITANT_TYPES
    ensures forall u :: u in INHABITANT_TYPES ==> u in c && c[u] == (if u == t then 1 else 0)
  {
    map u | u in INHABITANT_TYPES :: if u == t then 1 else 0
  }

  /** The record after one more worker of type `t` joins: created with `t` at 1
      when missing, otherwise `t` incremented. */
  function AssignedCounts(rec: Option<Counts>, t: string): (c: Counts)
    requires t in INHABITANT_TYPES
    ensures forall u :: u in INHABITANT_TYPES ==>
      CountOf(Some(c), u) == CountOf(rec, u) + (if u == t then 1 else 0)
  {
    if rec.None? then NewRecord(t) else rec.value[t := CountOf(rec, t) + 1]
  }

  /** Two records that agree on every type of `types` except `t`, which grew by one. */
  lemma {:induction false} SumOverIncrement(types: seq<string>, a: Option<Counts>, b: Option<Counts>, t: string)
    requires forall i, j :: 0 <= i < j < |types| ==> types[i] != types[j]
    requires forall u :: u in types ==> CountOf(b, u) == CountOf(a, u) + (if u == t then 1 else 0)
    ensures SumOver(types, b) == SumOver(types, a) + (if t in types then 1 else 0)
  {
    if types != [] {
      var rest := types[1..];
      assert forall u :: u in rest ==> u in types;
      assert forall i, j :: 0 <= i < j < |rest| ==> rest[i] != rest[j] by {
        forall i, j | 0 <= i < j < |rest| ensures rest[i] != rest[j] {
          assert rest[i] == types[i + 1] && rest[j] == types[j + 1];
        }
      }
      SumOverIncrement(rest, a, b, t);
      if types[0] == t {
        assert t !in rest by {
          forall k | 0 <= k < |rest| ensures rest[k] != t {
            assert rest[k] == types[k + 1];
          }
        }
      } else {
        assert (t in types) == (t in rest) by {
          if t in types {
            var k :| 0 <= k < |types| && types[k] == t;
            assert rest[k - 1] == t;
          }
        }
      }
    }
  }

  /** Assigning one worker raises the village's total by exactly one. */
  lemma TotalAfterAssign(rec: Option<Counts>, t: string)
    requires t in INHABITANT_TYPES
    ensures TotalInhabitants(Some(AssignedCounts(rec, t))) == TotalInhabitants(rec) + 1
  {
    SumOverIncrement(INHABITANT_TYPES, rec, Some(AssignedCounts(rec, t)), t);
  }

  /** `getUnoccupiedInhabitantsCount`: workers neither on a mission nor building.
      `busyBuilders` is the sum over unfinished constructions, absent when there are none. */
  function GetUnoccupiedInhabitantsCount(total: int, activeMissions: nat, busyBuilders: Option<int>): (r: int)
    ensures r >= 0
    ensures total <= 0 ==> r == 0
    ensures r > 0 ==> r + activeMissions + (if busyBuilders.Some? then busyBuilders.value else 0) == total
    ensures total > 0 && r == 0 ==> total <= activeMissions + (if busyBuilders.Some? then busyBuilders.value else 0)
  {
    if total <= 0 then 0
    else
      var busy := if busyBuilders.Some? then busyBuilders.value else 0;
      if total - activeMissions - busy > 0 then total - activeMissions - busy else 0
  }

  /** More work in progress never frees a worker; with none in progress every inhabitant is free. */
  lemma UnoccupiedMonotone(total: int, m1: nat, m2: nat, b1: int, b2: int)
    requires m1 <= m2 && b1 <= b2
    ensures GetUnoccupiedInhabitantsCount(total, m2, Some(b2)) <= GetUnoccupiedInhabitantsCount(total, m1, Some(b1))
    ensures GetUnoccupiedInhabitantsCount(total, 0, None) == if total > 0 then total else 0
    ensures b1 >= 0 ==> GetUnoccupiedInhabitantsCount(total, m1, Some(b1)) <= if total > 0 then total else 0
  {
  }

  datatype AssignError = InvalidInhabitantType | VillageNotFound

  /** The inhabitant records of all villages, keyed by village id. */
  class InhabitantsTable {
    var records: map<nat, Counts>

    constructor ()
      ensures records == map[]
    {
      records := map[];
    }

    function RecordOf(villageId: nat): Option<Counts>
      reads this
    {
      if villageId in records then Some(records[villageId]) else None
    }

    /** `assignInhabitant`, for the caller's village `villageId` (None when the caller owns none). */
    method AssignInhabitant(villageId: Option<nat>, t: string) returns (r: Result<(), AssignError>)
      modifies this
      ensures t !in INHABITANT_TYPES ==> r == Err(InvalidInhabitantType) && records == old(records)
      ensures t in INHABITANT_TYPES && villageId.None? ==> r == Err(VillageNotFound) && records == old(records)
      ensures t in INHABITANT_TYPES && villageId.Some? ==>
        r.Ok? && records == old(records)[villageId.value := AssignedCounts(old(RecordOf(villageId.value)), t)]
    {
      if t !in INHABITANT_TYPES {
        return Err(InvalidInhabitantType);
      }
      if villageId.None? {
        return Err(VillageNotFound);
      }
      var v := villageId.value;
      records := records[v := AssignedCounts(RecordOf(v), t)];
      r := Ok(());
    }
  }
}
