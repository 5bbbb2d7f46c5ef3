/** The lazily evaluated mission state machine
    (lib/game/missions/compute-mission-status.ts). All instants are integer
    milliseconds; durations stored on a mission are whole seconds. */
module MissionStatus {
  import opened Wrappers
  import Distance

  datatype Phase = TravelingTo | Working | TravelingBack | Completed

  /** Position of a phase in the lifecycle order. */
  function PhaseIndex(p: Phase): nat
  {
    match p
    case TravelingTo => 0
    case Working => 1
    case TravelingBack => 2
    case Completed => 3
  }

  /** What the calculator reads: the stored mission plus the worker type's stats. */
  datatype MissionData = MissionData(
    departedAt: int,
    travelSeconds: int,
    workSeconds: int,
    recalledAt: Option<int>,
    gatherRate: int,
    maxCapacity: int)

  datatype Status = Status(
    phase: Phase,
    phaseProgress: real,
    overallProgress: real,
    secondsRemaining: int,
    projectedResource: int,
    canRecall: bool)

  function Clamp(v: real): (r: real)
    ensures 0.0 <= r <= 1.0
    ensures 0.0 <= v <= 1.0 ==> r == v
  {
    if v < 0.0 then 0.0 else if v > 1.0 then 1.0 else v
  }

  /** clamp(n / d) with the source's floating division: a zero divisor gives
      -Infinity or +Infinity, clamped to 0 or 1. */
  function ClampedRatio(n: int, d: int): (r: real)
    ensures 0.0 <= r <= 1.0
  {
    if d == 0 then (if n > 0 then 1.0 else 0.0)
    else Clamp(n as real / d as real)
  }

  /** Wood a finished, non-recalled mission brings home:
      floor(workSeconds / 3600 * gatherRate), capped at maxCapacity. */
  function Yield(workSeconds: int, gatherRate: int, maxCapacity: int): (y: int)
    ensures y <= maxCapacity
    ensures y == maxCapacity || (y * 3600 <= workSeconds * gatherRate < (y + 1) * 3600)
    ensures y == maxCapacity ==> maxCapacity * 3600 <= workSeconds * gatherRate
  {
    var f := workSeconds * gatherRate / 3600;
    if f < maxCapacity then f else maxCapacity
  }

  function Max0(n: int): nat
  {
    if n < 0 then 0 else n
  }

  /** Instant (ms) at which the mission is back home. */
  function ArriveHome(m: MissionData): int
  {
    match m.recalledAt
    case Some(r) => r + (r - m.departedAt)
    case None => m.departedAt + m.travelSeconds * 1000 * 2 + m.workSeconds * 1000
  }

  /** `computeMissionStatus(mission, now)`. */
  function ComputeMissionStatus(m: MissionData, now: int): (s: Status)
    ensures s.canRecall <==> s.phase == TravelingTo
    ensures s.secondsRemaining >= 0
    ensures s.phase == Completed ==> s.secondsRemaining == 0
    ensures s.phase != Completed ==>
              s.secondsRemaining == Max0(Distance.CeilDiv(ArriveHome(m) - now, 1000))
    ensures (m.recalledAt.Some? || (m.travelSeconds >= 0 && m.workSeconds >= 0)) ==>
              (s.secondsRemaining == 0 <==> s.phase == Completed)
    ensures 0.0 <= s.phaseProgress <= 1.0 && 0.0 <= s.overallProgress <= 1.0
    ensures m.recalledAt.Some? ==>
              s.projectedResource == 0 && !s.canRecall && s.phase != Working
    ensures m.recalledAt.None? ==>
              s.projectedResource == Yield(m.workSeconds, m.gatherRate, m.maxCapacity)
  {
    match m.recalledAt
    case Some(recalledMs) =>
      var elapsedBeforeRecall := recalledMs - m.departedAt;
      var returnArrival := recalledMs + elapsedBeforeRecall;
      if now < returnArrival then
        var elapsed := now - recalledMs;
        Status(TravelingBack,
               ClampedRatio(elapsed, elapsedBeforeRecall),
               ClampedRatio(elapsedBeforeRecall + elapsed, elapsedBeforeRecall * 2),
               Max0(Distance.CeilDiv(returnArrival - now, 1000)),
               0, false)
      else
        Status(Completed, 1.0, 1.0, 0, 0, false)
    case None =>
      var travelMs := m.travelSeconds * 1000;
      var workMs := m.workSeconds * 1000;
      var totalMs := travelMs * 2 + workMs;
      var arriveAtTarget := m.departedAt + travelMs;
      var finishWork := arriveAtTarget + workMs;
      var arriveHome := finishWork + travelMs;
      var projected := Yield(m.workSeconds, m.gatherRate, m.maxCapacity);
      var remaining := Max0(Distance.CeilDiv(arriveHome - now, 1000));
      if now < arriveAtTarget then
        var elapsed := now - m.departedAt;
        Status(TravelingTo, ClampedRatio(elapsed, travelMs), ClampedRatio(elapsed, totalMs),
               remaining, projected, true)
      else if now < finishWork then
        var elapsed := now - arriveAtTarget;
        Status(Working, ClampedRatio(elapsed, workMs), ClampedRatio(travelMs + elapsed, totalMs),
               remaining, projected, false)
      else if now < arriveHome then
        var elapsed := now - finishWork;
        Status(TravelingBack, ClampedRatio(elapsed, travelMs),
               ClampedRatio(travelMs + workMs + elapsed, totalMs),
               remaining, projected, false)
      else
        Status(Completed, 1.0, 1.0, 0, projected, false)
  }

  /** Without a recall the phase is fixed by three thresholds: arrival at the
      target, end of work, arrival home. */
  lemma NormalPhaseWindows(m: MissionData, now: int)
    requires m.recalledAt.None?
    ensures var p := ComputeMissionStatus(m, now).phase;
            var arrive := m.departedAt + m.travelSeconds * 1000;
            var finish := arrive + m.workSeconds * 1000;
            var home := finish + m.travelSeconds * 1000;
            && (p == TravelingTo <==> now < arrive)
            && (p == Working <==> arrive <= now < finish)
            && (p == TravelingBack <==> arrive <= now && finish <= now < home)
            && (p == Completed <==> arrive <= now && finish <= now && home <= now)
  {
  }

  /** After a recall the workers walk back for as long as they had walked out,
      and never work. */
  lemma RecalledPhaseWindows(m: MissionData, now: int)
    requires m.recalledAt.Some?
    ensures var p := ComputeMissionStatus(m, now).phase;
            var back := m.recalledAt.value + (m.recalledAt.value - m.departedAt);
            && (p == TravelingBack <==> now < back)
            && (p == Completed <==> back <= now)
  {
  }

  /** The phase never moves backwards as time passes, with or without a recall. */
  lemma PhaseMonotone(m: MissionData, t1: int, t2: int)
    requires t1 <= t2
    ensures PhaseIndex(ComputeMissionStatus(m, t1).phase) <= PhaseIndex(ComputeMissionStatus(m, t2).phase)
  {
    if m.recalledAt.None? {
      NormalPhaseWindows(m, t1);
      NormalPhaseWindows(m, t2);
    } else {
      RecalledPhaseWindows(m, t1);
      RecalledPhaseWindows(m, t2);
    }
  }

  /** Completion is reached exactly at the arrival-home instant and is permanent. */
  lemma CompletedExactlyFromArriveHome(m: MissionData, now: int)
    ensures ComputeMissionStatus(m, now).phase == Completed <==>
              (ArriveHome(m) <= now &&
               (m.recalledAt.None? ==> m.departedAt + m.travelSeconds * 1000 <= now &&
                                       m.departedAt + m.travelSeconds * 1000 + m.workSeconds * 1000 <= now))
  {
  }

  /** The worked example of the design: 18000 s each way, one hour of work,
      gather rate 10, capacity 30. */
  lemma ConcreteLumberjackMission(departedAt: int)
    ensures var m := MissionData(departedAt, 18000, 3600, None, 10, 30);
            && ComputeMissionStatus(m, departedAt).projectedResource == 10
            && ComputeMissionStatus(m, departedAt + 18000 * 1000).phase == Working
            && ComputeMissionStatus(m, departedAt + 18000 * 1000).phaseProgress == 0.0
            && ComputeMissionStatus(m, departedAt + 39600 * 1000).phase == Completed
  {
  }
}
