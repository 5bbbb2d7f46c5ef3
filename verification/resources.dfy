/** The resource ledger's daily food decay
    (lib/game/resources/apply-daily-consumption.ts and
    lib/game/resources/compute-daily-consumption.ts).
    Consumption rates are integer tenths of a unit per inhabitant per day. */
module Resources {
  import opened Wrappers
  import Inhabitants

  const DAY_MS: int := 86_400_000

  /** `computeFullDaysElapsed`: UTC midnights crossed between `since` and `now`. */
  function FullDaysElapsed(since: int, now: int): int
  {
    now / DAY_MS - since / DAY_MS
  }

  /** `computeMidnightBoundary`: the UTC midnight `days` days after the one starting `since`'s day. */
  function MidnightBoundary(since: int, days: int): (b: int)
    ensures b % DAY_MS == 0
  {
    (since / DAY_MS + days) * DAY_MS
  }

  /** Counting from `since`'s own midnight, the new boundary is the midnight
      that starts `now`'s day: a multiple of a day, at most `now`, less than a
      day before it, and from it no further full day has elapsed. */
  lemma BoundaryIsStartOfToday(since: int, now: int)
    ensures var b := MidnightBoundary(since, FullDaysElapsed(since, now));
            && b % DAY_MS == 0 && b <= now && now - b < DAY_MS
            && b / DAY_MS == now / DAY_MS
            && FullDaysElapsed(b, now) == 0
  {
    var b := MidnightBoundary(since, FullDaysElapsed(since, now));
    assert b == (now / DAY_MS) * DAY_MS;
    assert b / DAY_MS == now / DAY_MS;
  }

  /** A positive day count moves the boundary strictly past `since`. */
  lemma BoundaryAdvances(since: int, days: int)
    requires days > 0
    ensures MidnightBoundary(since, days) > since
  {
    assert (since / DAY_MS + 1) * DAY_MS > since;
    assert (since / DAY_MS + days) * DAY_MS >= (since / DAY_MS + 1) * DAY_MS;
  }

  /** Jan 1 2025 23:00 UTC to Jan 3 2025 01:00 UTC crosses two midnights. */
  lemma TwoMidnights()
    ensures FullDaysElapsed(1735772400000, 1735866000000) == 2
  {
  }

  /** A worker type's daily food needs, in tenths. */
  datatype InhabitantTypeRow = InhabitantTypeRow(key: string, consumeCerealesTenths: int, consumeViandeTenths: int)

  datatype DailyConsumption = DailyConsumption(cerealesTenths: int, viandeTenths: int)

  /** `new Map(types.map(t => [t.key, t]))`: a later entry with the same key wins. */
  function TypeMap(types: seq<InhabitantTypeRow>): (m: map<string, InhabitantTypeRow>)
    ensures m.Keys == set i | 0 <= i < |types| :: types[i].key
    ensures forall k :: k in m ==> m[k].key == k
  {
    if types == [] then map[]
    else
      var init := types[..|types| - 1];
      var last := types[|types| - 1];
      var m := TypeMap(init)[last.key := last];
      assert forall i :: 0 <= i < |types| - 1 ==> init[i] == types[i];
      assert m.Keys == (set i | 0 <= i < |init| :: init[i].key) + {last.key};
      m
  }

  /** The entry kept for a key is the last one carrying it. */
  lemma {:induction false} TypeMapLastWins(types: seq<InhabitantTypeRow>, i: nat)
    requires i < |types|
    requires forall j :: i < j < |types| ==> types[j].key != types[i].key
    ensures types[i].key in TypeMap(types) && TypeMap(types)[types[i].key] == types[i]
  {
    var init := types[..|types| - 1];
    if i < |types| - 1 {
      assert forall j :: i < j < |init| ==> init[j] == types[j];
      TypeMapLastWins(init, i);
      assert init[i] == types[i];
    }
  }

  /** What one worker type adds to the daily need: nothing when the type is not
      in the catalog or has no workers. */
  function Contribution(count: int, key: string, tmap: map<string, InhabitantTypeRow>): DailyConsumption
  {
    if key !in tmap || count == 0 then DailyConsumption(0, 0)
    else DailyConsumption(count * tmap[key].consumeCerealesTenths, count * tmap[key].consumeViandeTenths)
  }

  /** The sum of the contributions of `keys`. */
  function ConsumptionOver(keys: seq<string>, counts: Inhabitants.Counts, tmap: map<string, InhabitantTypeRow>): DailyConsumption
  {
    if keys == [] then DailyConsumption(0, 0)
    else
      var rest := ConsumptionOver(keys[..|keys| - 1], counts, tmap);
      var c := Contribution(Inhabitants.CountOf(Some(counts), keys[|keys| - 1]), keys[|keys| - 1], tmap);
      DailyConsumption(rest.cerealesTenths + c.cerealesTenths, rest.viandeTenths + c.viandeTenths)
  }

  /** The daily need of a village: zero without an inhabitant record. */
  function DailyNeed(inhabitants: Option<Inhabitants.Counts>, types: seq<InhabitantTypeRow>): DailyConsumption
  {
    if inhabitants.None? then DailyConsumption(0, 0)
    else ConsumptionOver(Inhabitants.INHABITANT_TYPES, inhabitants.value, TypeMap(types))
  }

  /** `computeDailyConsumption`. Rounding the sums to one decimal is the identity on tenths. */
  method ComputeDailyConsumption(inhabitants: Option<Inhabitants.Counts>, types: seq<InhabitantTypeRow>)
    returns (d: DailyConsumption)
    ensures d == DailyNeed(inhabitants, types)
  {
    if inhabitants.None? {
      return DailyConsumption(0, 0);
    }
    var counts := inhabitants.value;
    var typeMap := TypeMap(types);
    var cereales := 0;
    var viande := 0;
    var keys := Inhabitants.INHABITANT_TYPES;
    for i := 0 to |keys|
      invariant DailyConsumption(cereales, viande) == ConsumptionOver(keys[..i], counts, typeMap)
    {
      assert keys[..i + 1][..i] == keys[..i];
      var key := keys[i];
      var count := Inhabitants.CountOf(Some(counts), key);
      if key !in typeMap || count == 0 {
        continue;
      }
      cereales := cereales + count * typeMap[key].consumeCerealesTenths;
      viande := viande + count * typeMap[key].consumeViandeTenths;
    }
    assert keys[..|keys|] == keys;
    d := DailyConsumption(cereales, viande);
  }

  predicate NonNegativeRates(tmap: map<string, InhabitantTypeRow>)
  {
    forall k :: k in tmap ==> tmap[k].consumeCerealesTenths >= 0 && tmap[k].consumeViandeTenths >= 0
  }

  /** With non-negative counts and rates the need is non-negative. */
  lemma {:induction false} ConsumptionNonNegative(keys: seq<string>, counts: Inhabitants.Counts, tmap: map<string, InhabitantTypeRow>)
    requires NonNegativeRates(tmap)
    requires forall k :: k in counts ==> counts[k] >= 0
    ensures ConsumptionOver(keys, counts, tmap).cerealesTenths >= 0
    ensures ConsumptionOver(keys, counts, tmap).viandeTenths >= 0
  {
    if keys != [] {
      ConsumptionNonNegative(keys[..|keys| - 1], counts, tmap);
      var k := keys[|keys| - 1];
      if k in tmap && Inhabitants.CountOf(Some(counts), k) != 0 {
        var n := Inhabitants.CountOf(Some(counts), k);
        assert n * tmap[k].consumeCerealesTenths >= 0;
        assert n * tmap[k].consumeViandeTenths >= 0;
      }
    }
  }

  /** One more head of type `t` contributes exactly one more day's rations of `t`. */
  lemma ContributionOneMore(n: int, t: string, tmap: map<string, InhabitantTypeRow>)
    requires t in tmap
    ensures Contribution(n + 1, t, tmap).cerealesTenths == Contribution(n, t, tmap).cerealesTenths + tmap[t].consumeCerealesTenths
    ensures Contribution(n + 1, t, tmap).viandeTenths == Contribution(n, t, tmap).viandeTenths + tmap[t].consumeViandeTenths
  {
    assert (n + 1) * tmap[t].consumeCerealesTenths == n * tmap[t].consumeCerealesTenths + tmap[t].consumeCerealesTenths;
    assert (n + 1) * tmap[t].consumeViandeTenths == n * tmap[t].consumeViandeTenths + tmap[t].consumeViandeTenths;
  }

  /** Dropping the last key of a duplicate-free list: the rest is duplicate-free and lacks that key. */
  lemma DistinctInit(keys: seq<string>)
    requires keys != []
    requires forall i, j :: 0 <= i < j < |keys| ==> keys[i] != keys[j]
    ensures var init := keys[..|keys| - 1];
            && (forall i, j :: 0 <= i < j < |init| ==> init[i] != init[j])
            && keys[|keys| - 1] !in init
            && forall u :: u in keys <==> u in init || u == keys[|keys| - 1]
  {
    var init := keys[..|keys| - 1];
    assert keys == init + [keys[|keys| - 1]];
    forall x | 0 <= x < |init| ensures init[x] != keys[|keys| - 1] {
      assert init[x] == keys[x];
    }
  }

  /** One more worker of a catalogued type `t` raises the need by exactly that type's rates. */
  lemma {:induction false} ConsumptionAfterOneMore(keys: seq<string>, a: Inhabitants.Counts, b: Inhabitants.Counts,
                                                   t: string, tmap: map<string, InhabitantTypeRow>)
    requires forall i, j :: 0 <= i < j < |keys| ==> keys[i] != keys[j]
    requires forall u :: u in keys ==>
      Inhabitants.CountOf(Some(b), u) == Inhabitants.CountOf(Some(a), u) + (if u == t then 1 else 0)
    requires t in tmap
    ensures var before := ConsumptionOver(keys, a, tmap);
            var after := ConsumptionOver(keys, b, tmap);
            var inc := if t in keys then 1 else 0;
            && after.cerealesTenths == before.cerealesTenths + inc * tmap[t].consumeCerealesTenths
            && after.viandeTenths == before.viandeTenths + inc * tmap[t].consumeViandeTenths
  {
    if keys != [] {
      var init := keys[..|keys| - 1];
      var k := keys[|keys| - 1];
      DistinctInit(keys);
      ConsumptionAfterOneMore(init, a, b, t, tmap);
      if k == t {
        ContributionOneMore(Inhabitants.CountOf(Some(a), k), t, tmap);
      }
    }
  }

  /** Assigning a worker of a catalogued type adds exactly that type's daily rates to the village's need. */
  lemma NeedAfterAssign(counts: Inhabitants.Counts, t: string, types: seq<InhabitantTypeRow>)
    requires t in Inhabitants.INHABITANT_TYPES && t in TypeMap(types)
    ensures var before := DailyNeed(Some(counts), types);
            var after := DailyNeed(Some(Inhabitants.AssignedCounts(Some(counts), t)), types);
            && after.cerealesTenths == before.cerealesTenths + TypeMap(types)[t].consumeCerealesTenths
            && after.viandeTenths == before.viandeTenths + TypeMap(types)[t].consumeViandeTenths
  {
    ConsumptionAfterOneMore(Inhabitants.INHABITANT_TYPES, counts, Inhabitants.AssignedCounts(Some(counts), t), t, TypeMap(types));
  }

  /** `Math.round(tenths / 10)`: the nearest whole unit, halves rounded up. */
  function RoundTenths(tenths: int): (r: int)
    ensures r * 10 - 5 <= tenths < r * 10 + 5
  {
    (tenths + 5) / 10
  }

  function Max0(n: int): int
  {
    if n < 0 then 0 else n
  }

  /** A village's resource counters and the last fully applied decay boundary. */
  datatype Ledger = Ledger(bois: int, pierre: int, cereales: int, viande: int, lastConsumptionAt: int)

  /** The decay `applyDailyConsumption` would write, or None when no full day has passed. */
  function PlanConsumption(res: Ledger, daily: DailyConsumption, now: int): (r: Option<Ledger>)
    ensures r.None? <==> FullDaysElapsed(res.lastConsumptionAt, now) <= 0
    ensures r.Some? ==>
      var days := FullDaysElapsed(res.lastConsumptionAt, now);
      var owedC := RoundTenths(daily.cerealesTenths * days);
      var owedV := RoundTenths(daily.viandeTenths * days);
      && r.value.bois == res.bois && r.value.pierre == res.pierre
      && r.value.cereales >= 0 && r.value.viande >= 0
      && (r.value.cereales == 0 || r.value.cereales == res.cereales - owedC)
      && (r.value.viande == 0 || r.value.viande == res.viande - owedV)
      && (res.cereales - owedC >= 0 ==> r.value.cereales == res.cereales - owedC)
      && (res.viande - owedV >= 0 ==> r.value.viande == res.viande - owedV)
      && r.value.lastConsumptionAt == MidnightBoundary(res.lastConsumptionAt, days)
  {
    var days := FullDaysElapsed(res.lastConsumptionAt, now);
    if days <= 0 then None
    else
      var totalC := daily.cerealesTenths * days;
      var totalV := daily.viandeTenths * days;
      Some(Ledger(res.bois, res.pierre,
                  Max0(res.cereales - RoundTenths(totalC)),
                  Max0(res.viande - RoundTenths(totalV)),
                  MidnightBoundary(res.lastConsumptionAt, days)))
  }

  /** After a decay the boundary is the midnight starting `now`'s day, so a
      second decay at the same instant does nothing. */
  lemma ConsumptionIdempotent(res: Ledger, daily: DailyConsumption, now: int)
    requires PlanConsumption(res, daily, now).Some?
    ensures var after := PlanConsumption(res, daily, now).value;
            && after.lastConsumptionAt % DAY_MS == 0
            && after.lastConsumptionAt <= now < after.lastConsumptionAt + DAY_MS
            && PlanConsumption(after, daily, now).None?
  {
    BoundaryIsStartOfToday(res.lastConsumptionAt, now);
  }

  /** With a non-negative need, food never goes up. */
  lemma ConsumptionNeverAddsFood(res: Ledger, daily: DailyConsumption, now: int)
    requires daily.cerealesTenths >= 0 && daily.viandeTenths >= 0
    requires res.cereales >= 0 && res.viande >= 0
    requires PlanConsumption(res, daily, now).Some?
    ensures PlanConsumption(res, daily, now).value.cereales <= res.cereales
    ensures PlanConsumption(res, daily, now).value.viande <= res.viande
  {
    var days := FullDaysElapsed(res.lastConsumptionAt, now);
    assert daily.cerealesTenths * days >= 0;
    assert daily.viandeTenths * days >= 0;
  }

  /** The conditional write of the decay: it lands only if `lastConsumptionAt`
      still holds the value read, and writes cereales, viande and the boundary only. */
  function CommitIfUnchanged(current: Ledger, expectedLast: int, plan: Ledger): (r: (Ledger, bool))
    ensures r.1 <==> current.lastConsumptionAt == expectedLast
    ensures !r.1 ==> r.0 == current
    ensures r.1 ==> r.0 == current.(cereales := plan.cereales, viande := plan.viande,
                                    lastConsumptionAt := plan.lastConsumptionAt)
  {
    if current.lastConsumptionAt == expectedLast then
      (current.(cereales := plan.cereales, viande := plan.viande, lastConsumptionAt := plan.lastConsumptionAt), true)
    else (current, false)
  }

  /** Two requests that read the same record both plan a decay; the first commit
      lands and the second finds the boundary moved and changes nothing, so the
      decay is applied once. */
  lemma ConcurrentDecayAppliesOnce(snapshot: Ledger, d1: DailyConsumption, d2: DailyConsumption, now1: int, now2: int)
    requires PlanConsumption(snapshot, d1, now1).Some? && PlanConsumption(snapshot, d2, now2).Some?
    ensures var first := CommitIfUnchanged(snapshot, snapshot.lastConsumptionAt, PlanConsumption(snapshot, d1, now1).value);
            var second := CommitIfUnchanged(first.0, snapshot.lastConsumptionAt, PlanConsumption(snapshot, d2, now2).value);
            && first.1 && first.0 == PlanConsumption(snapshot, d1, now1).value
            && !second.1 && second.0 == first.0
  {
    BoundaryAdvances(snapshot.lastConsumptionAt, FullDaysElapsed(snapshot.lastConsumptionAt, now1));
  }

  /** A village's stored resources record. */
  class ResourcesRecord {
    var bois: int
    var pierre: int
    var cereales: int
    var viande: int
    var lastConsumptionAt: int

    constructor (initial: Ledger)
      ensures Value() == initial
    {
      bois := initial.bois;
      pierre := initial.pierre;
      cereales := initial.cereales;
      viande := initial.viande;
      lastConsumptionAt := initial.lastConsumptionAt;
    }

    function Value(): Ledger
      reads this
    {
      Ledger(bois, pierre, cereales, viande, lastConsumptionAt)
    }

    /** The `updateMany` guarded by the `lastConsumptionAt` read earlier. */
    method Commit(expectedLast: int, plan: Ledger) returns (updated: bool)
      modifies this
      ensures (Value(), updated) == CommitIfUnchanged(old(Value()), expectedLast, plan)
    {
      if lastConsumptionAt != expectedLast {
        return false;
      }
      cereales := plan.cereales;
      viande := plan.viande;
      lastConsumptionAt := plan.lastConsumptionAt;
      updated := true;
    }
  }

  /** `applyDailyConsumption`; `rec` is null when the village has no resources record. */
  method ApplyDailyConsumption(rec: ResourcesRecord?, inhabitants: Option<Inhabitants.Counts>,
                               types: seq<InhabitantTypeRow>, now: int) returns (applied: bool)
    modifies rec
    ensures rec == null ==> !applied
    ensures rec != null ==>
      var plan := PlanConsumption(old(rec.Value()), DailyNeed(inhabitants, types), now);
      && applied == plan.Some?
      && rec.Value() == (if plan.Some? then plan.value else old(rec.Value()))
  {
    if rec == null {
      return false;
    }
    var read := rec.Value();
    var days := FullDaysElapsed(read.lastConsumptionAt, now);
    if days <= 0 {
      return false;
    }
    var daily := ComputeDailyConsumption(inhabitants, types);
    var plan := PlanConsumption(read, daily, now);
    applied := rec.Commit(read.lastConsumptionAt, plan.value);
  }
}
