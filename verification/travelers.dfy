/** The wandering traveler of a village (lib/game/travelers): one record per
    village that arrives after a random delay, stays a random time, can be
    welcomed (which holds it for a day) and assigned as a new inhabitant. */
module Travelers {
  import opened Wrappers
  import Inhabitants
  import Villages

  /** Delays and stays in seconds (lib/game/travelers/constants.ts). */
  const MIN_ARRIVAL_DELAY: int := 5 * 60
  const MAX_ARRIVAL_DELAY: int := 15 * 60
  const MIN_STAY_DURATION: int := 10 * 60
  const MAX_STAY_DURATION: int := 30 * 60
  const LOCK_DURATION_SECONDS: int := 24 * 60 * 60

  datatype Traveler = Traveler(
    villageId: nat,
    arrivesAt: int,
    departsAt: int,
    welcomedAt: Option<int>,
    assignedAt: Option<int>)

  /** `randomBetween(min, max)` for a draw `r` of `Math.random()` in [0, 1). */
  function RandomBetween(min: int, max: int, r: real): (n: int)
    requires 0.0 <= r < 1.0
    ensures min <= max ==> min <= n <= max
  {
    (r * (max - min + 1) as real).Floor + min
  }

  /** `createTravelerDates` at instant `now`, with two draws. */
  function CreateTravelerDates(now: int, r1: real, r2: real): (d: (int, int))
    requires 0.0 <= r1 < 1.0 && 0.0 <= r2 < 1.0
    ensures MIN_ARRIVAL_DELAY * 1000 <= d.0 - now <= MAX_ARRIVAL_DELAY * 1000
    ensures MIN_STAY_DURATION * 1000 <= d.1 - d.0 <= MAX_STAY_DURATION * 1000
    ensures (d.0 - now) % 1000 == 0 && (d.1 - d.0) % 1000 == 0
  {
    var arrivesAt := now + RandomBetween(MIN_ARRIVAL_DELAY, MAX_ARRIVAL_DELAY, r1) * 1000;
    var departsAt := arrivesAt + RandomBetween(MIN_STAY_DURATION, MAX_STAY_DURATION, r2) * 1000;
    (arrivesAt, departsAt)
  }

  datatype TravelerStatus = Waiting(arrivesAt: int) | Present(departsAt: int)

  /** The record is replaced when there is none, when its traveler has been
      assigned, or when it has left. */
  predicate NeedsReplacement(existing: Option<Traveler>, now: int)
  {
    existing.None? || existing.value.assignedAt.Some? || existing.value.departsAt <= now
  }

  /** A traveler that has arrived and not yet left. */
  predicate PresentAt(t: Traveler, now: int)
  {
    t.arrivesAt <= now < t.departsAt
  }

  datatype WelcomeError = NoTravelerAvailable | NotYetArrived | AlreadyLeft

  /** The guards of `welcomeTraveler` and the record it writes, as written:
      only `departsAt` is pushed a day ahead. */
  function WelcomeAsWritten(t: Option<Traveler>, now: int): (r: Result<Traveler, WelcomeError>)
    ensures r == Err(NoTravelerAvailable) <==> t.None?
    ensures r == Err(NotYetArrived) <==> t.Some? && t.value.arrivesAt > now
    ensures r == Err(AlreadyLeft) <==> t.Some? && t.value.arrivesAt <= now && t.value.departsAt <= now
    ensures r.Ok? ==> PresentAt(t.value, now) && r.value == t.value.(departsAt := now + LOCK_DURATION_SECONDS * 1000)
  {
    if t.None? then Err(NoTravelerAvailable)
    else if t.value.arrivesAt > now then Err(NotYetArrived)
    else if t.value.departsAt <= now then Err(AlreadyLeft)
    else Ok(t.value.(departsAt := now + LOCK_DURATION_SECONDS * 1000))
  }

  /** `welcomeTraveler` with the welcome recorded: the same guards, and the
      record also gets `welcomedAt = now`. */
  function Welcome(t: Option<Traveler>, now: int): (r: Result<Traveler, WelcomeError>)
    ensures r.Err? <==> WelcomeAsWritten(t, now).Err?
    ensures r.Err? ==> r == WelcomeAsWritten(t, now)
    ensures r.Ok? ==> PresentAt(t.value, now)
                      && r.value == t.value.(departsAt := now + LOCK_DURATION_SECONDS * 1000, welcomedAt := Some(now))
  {
    match WelcomeAsWritten(t, now)
    case Err(e) => Err(e)
    case Ok(w) => Ok(w.(welcomedAt := Some(now)))
  }

  /** After a welcome the traveler is present, and stays so for a day. */
  lemma WelcomeHoldsTraveler(t: Option<Traveler>, now: int, later: int)
    requires Welcome(t, now).Ok?
    requires now <= later < now + LOCK_DURATION_SECONDS * 1000
    ensures PresentAt(Welcome(t, now).value, now) && PresentAt(Welcome(t, now).value, later)
    ensures PresentAt(WelcomeAsWritten(t, now).value, later)
  {
  }

  datatype AssignError = InvalidInhabitantType | VillageNotFound | NoTraveler | NotWelcomed | VillageFull

  /** The conditional claim of `assignTraveler`. */
  predicate Claimable(t: Traveler, now: int)
  {
    t.welcomedAt.Some? && t.assignedAt.None? && PresentAt(t, now)
  }

  /** The guard chain of `assignTraveler`. `village` is the caller's village,
      `traveler` its traveler record, `inhabitants` its inhabitant record. On
      success: the claimed traveler and the new inhabitant record. */
  function CheckAssign(t: string, village: Option<Villages.Village>, traveler: Option<Traveler>,
                       inhabitants: Option<Inhabitants.Counts>, now: int)
    : (r: Result<(Traveler, Inhabitants.Counts), AssignError>)
    ensures r == Err(InvalidInhabitantType) <==> t !in Inhabitants.INHABITANT_TYPES
    ensures r == Err(VillageNotFound) <==> t in Inhabitants.INHABITANT_TYPES && village.None?
    ensures r == Err(NoTraveler) <==>
      t in Inhabitants.INHABITANT_TYPES && village.Some?
      && (traveler.None?
          || (traveler.value.welcomedAt.Some?
              && Inhabitants.TotalInhabitants(inhabitants) < village.value.capacity
              && !Claimable(traveler.value, now)))
    ensures r == Err(NotWelcomed) <==>
      t in Inhabitants.INHABITANT_TYPES && village.Some? && traveler.Some? && traveler.value.welcomedAt.None?
    ensures r == Err(VillageFull) <==>
      t in Inhabitants.INHABITANT_TYPES && village.Some? && traveler.Some? && traveler.value.welcomedAt.Some?
      && Inhabitants.TotalInhabitants(inhabitants) >= village.value.capacity
    ensures r.Ok? ==>
      && Claimable(traveler.value, now)
      && r.value.0 == traveler.value.(assignedAt := Some(now))
      && r.value.1 == Inhabitants.AssignedCounts(inhabitants, t)
      && Inhabitants.TotalInhabitants(Some(r.value.1)) == Inhabitants.TotalInhabitants(inhabitants) + 1
      && Inhabitants.TotalInhabitants(Some(r.value.1)) <= village.value.capacity
  {
    if t !in Inhabitants.INHABITANT_TYPES then Err(InvalidInhabitantType)
    else if village.None? then Err(VillageNotFound)
    else if traveler.None? then Err(NoTraveler)
    else if traveler.value.welcomedAt.None? then Err(NotWelcomed)
    else if Inhabitants.TotalInhabitants(inhabitants) >= village.value.capacity then Err(VillageFull)
    else if !Claimable(traveler.value, now) then Err(NoTraveler)
    else
      Inhabitants.TotalAfterAssign(inhabitants, t);
      Ok((traveler.value.(assignedAt := Some(now)), Inhabitants.AssignedCounts(inhabitants, t)))
  }

  /** A traveler is assigned at most once: once claimed it can never be claimed again. */
  lemma AssignedAtMostOnce(t: string, village: Option<Villages.Village>, traveler: Option<Traveler>,
                           inhabitants: Option<Inhabitants.Counts>, now: int, t2: string,
                           inhabitants2: Option<Inhabitants.Counts>, later: int)
    requires CheckAssign(t, village, traveler, inhabitants, now).Ok?
    ensures CheckAssign(t2, village, Some(CheckAssign(t, village, traveler, inhabitants, now).value.0), inhabitants2, later).Err?
  {
  }

  /** As written, a welcomed traveler can never be assigned: the welcome leaves
      `welcomedAt` empty, so the assignment stops at "welcome the traveler first". */
  lemma AssignAfterWelcomeAsWrittenFails(t: string, village: Option<Villages.Village>, traveler: Option<Traveler>,
                                         inhabitants: Option<Inhabitants.Counts>, now: int, later: int)
    requires traveler.Some? && traveler.value.welcomedAt.None?
    requires WelcomeAsWritten(traveler, now).Ok?
    requires t in Inhabitants.INHABITANT_TYPES && village.Some?
    ensures CheckAssign(t, village, Some(WelcomeAsWritten(traveler, now).value), inhabitants, later) == Err(NotWelcomed)
  {
  }

  /** With the welcome recorded, a fresh traveler welcomed at `now` can be
      assigned at any instant of the following day while the village has room. */
  lemma AssignAfterWelcomeSucceeds(t: string, village: Option<Villages.Village>, traveler: Option<Traveler>,
                                   inhabitants: Option<Inhabitants.Counts>, now: int, later: int)
    requires traveler.Some? && traveler.value.assignedAt.None?
    requires Welcome(traveler, now).Ok?
    requires t in Inhabitants.INHABITANT_TYPES && village.Some?
    requires Inhabitants.TotalInhabitants(inhabitants) < village.value.capacity
    requires now <= later < now + LOCK_DURATION_SECONDS * 1000
    ensures CheckAssign(t, village, Some(Welcome(traveler, now).value), inhabitants, later).Ok?
  {
  }

  /** The traveler records, one per village at most. */
  class TravelerTable {
    var byVillage: map<nat, Traveler>

    /** Every record belongs to the village it is filed under. */
    ghost predicate Valid()
      reads this
    {
      forall v :: v in byVillage ==> byVillage[v].villageId == v
    }

    constructor ()
      ensures Valid() && byVillage == map[]
    {
      byVillage := map[];
    }

    function Get(villageId: nat): Option<Traveler>
      reads this
    {
      if villageId in byVillage then Some(byVillage[villageId]) else None
    }

    /** `resolveTraveler`, with the two draws of `Math.random()` as parameters. */
    method ResolveTraveler(villageId: nat, now: int, r1: real, r2: real) returns (s: TravelerStatus)
      requires Valid()
      requires 0.0 <= r1 < 1.0 && 0.0 <= r2 < 1.0
      modifies this
      ensures Valid()
      ensures villageId in byVillage
      ensures NeedsReplacement(old(Get(villageId)), now) ==>
        var d := CreateTravelerDates(now, r1, r2);
        && byVillage == old(byVillage)[villageId := Traveler(villageId, d.0, d.1, None, None)]
        && s == Waiting(d.0) && d.0 > now
      ensures !NeedsReplacement(old(Get(villageId)), now) ==>
        var t := old(byVillage[villageId]);
        && byVillage == old(byVillage)
        && (t.arrivesAt > now ==> s == Waiting(t.arrivesAt))
        && (t.arrivesAt <= now ==> s == Present(t.departsAt) && PresentAt(t, now))
    {
      var existing := Get(villageId);
      if NeedsReplacement(existing, now) {
        var d := CreateTravelerDates(now, r1, r2);
        byVillage := byVillage[villageId := Traveler(villageId, d.0, d.1, None, None)];
        return Waiting(d.0);
      }
      var t := existing.value;
      if t.arrivesAt > now {
        return Waiting(t.arrivesAt);
      }
      s := Present(t.departsAt);
    }

    /** `welcomeTraveler` for the caller's village, with the welcome recorded. */
    method WelcomeTraveler(villageId: Option<nat>, now: int) returns (r: Result<(), WelcomeError>)
      requires Valid()
      modifies this
      ensures Valid()
      ensures villageId.None? ==> r == Err(NoTravelerAvailable) && byVillage == old(byVillage)
      ensures villageId.Some? ==>
        var w := Welcome(old(Get(villageId.value)), now);
        && (w.Err? ==> r == Err(w.error) && byVillage == old(byVillage))
        && (w.Ok? ==> r.Ok? && byVillage == old(byVillage)[villageId.value := w.value])
    {
      if villageId.None? {
        return Err(NoTravelerAvailable);
      }
      var w := Welcome(Get(villageId.value), now);
      if w.Err? {
        return Err(w.error);
      }
      byVillage := byVillage[villageId.value := w.value];
      r := Ok(());
    }

    /** `assignTraveler`: one transaction over this table and the inhabitant
        records; any error leaves both untouched. */
    method AssignTraveler(t: string, village: Option<Villages.Village>,
                          inhabitants: Inhabitants.InhabitantsTable, now: int)
      returns (r: Result<(), AssignError>)
      requires Valid()
      modifies this, inhabitants
      ensures Valid()
      ensures var c := CheckAssign(t, village,
                                   if village.Some? then old(Get(village.value.id)) else None,
                                   if village.Some? then old(inhabitants.RecordOf(village.value.id)) else None, now);
              && (c.Err? ==> r == Err(c.error) && byVillage == old(byVillage) && inhabitants.records == old(inhabitants.records))
              && (c.Ok? ==> r.Ok?
                            && byVillage == old(byVillage)[village.value.id := c.value.0]
                            && inhabitants.records == old(inhabitants.records)[village.value.id := c.value.1])
    {
      var traveler := if village.Some? then Get(village.value.id) else None;
      var record := if village.Some? then inhabitants.RecordOf(village.value.id) else None;
      var c := CheckAssign(t, village, traveler, record, now);
      if c.Err? {
        return Err(c.error);
      }
      var v := village.value.id;
      byVillage := byVillage[v := c.value.0];
      inhabitants.records := inhabitants.records[v := c.value.1];
      r := Ok(());
    }
  }
}
