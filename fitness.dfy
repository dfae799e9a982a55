/**
 * The fitness evaluator (`grade`). It replays an individual in its order,
 * remembering for each driver where and when their previous route ended, and
 * subtracts 100 for each route that departs before that end plus the
 * transfer time plus a 10-minute buffer. The balance penalty it also
 * computes sits behind the guard `not {delta < 1}`: a one-element set is
 * never empty, so that branch never runs and the score counts timing
 * violations only.
 */
module Fitness {
  import opened Wrappers
  import opened Clock
  import opened TravelTimes
  import opened Records

  /** penalty_per_time */
  const TimingPenalty := 100
  /** penalty_per_number */
  const BalanceWeight := 1
  /** extra_time: minutes a driver needs between two routes */
  const HandlingBuffer := 10

  /** The last position before n whose gene is given to driver d. */
  function LastOf(ind: Individual, n: nat, d: int): (r: Option<nat>)
    requires n <= |ind|
    ensures r.Some? ==> r.value < n && ind[r.value].driverId == d
    ensures r.Some? ==> forall k :: r.value < k < n ==> ind[k].driverId != d
    ensures r.None? ==> forall k :: 0 <= k < n ==> ind[k].driverId != d
  {
    if n == 0 then None
    else if ind[n - 1].driverId == d then Some(n - 1)
    else LastOf(ind, n - 1, d)
  }

  /** When driver d's last route before position n ends, if d has one. */
  function PriorEnd(table: Table, ind: Individual, n: nat, d: int): Option<int>
    requires n <= |ind|
  {
    match LastOf(ind, n, d)
    case None => None
    case Some(j) => Some(EndTime(table, ind[j]))
  }

  /** Where driver d's last route before position n ends, if d has one. */
  function PriorLocation(ind: Individual, n: nat, d: int): Option<int>
    requires n <= |ind|
  {
    match LastOf(ind, n, d)
    case None => None
    case Some(j) => Some(ind[j].route.endLocation.id)
  }

  /** Moving past position i changes only the memory of position i's driver. */
  lemma PriorStep(table: Table, ind: Individual, i: nat, d: int)
    requires i < |ind|
    ensures PriorEnd(table, ind, i + 1, d) ==
      if d == ind[i].driverId then Some(EndTime(table, ind[i])) else PriorEnd(table, ind, i, d)
    ensures PriorLocation(ind, i + 1, d) ==
      if d == ind[i].driverId then Some(ind[i].route.endLocation.id) else PriorLocation(ind, i, d)
  {
  }

  lemma EndMemoryStep(table: Table, ind: Individual, i: nat, memory: map<int, Option<int>>)
    requires i < |ind|
    requires forall d :: d in memory ==> memory[d] == PriorEnd(table, ind, i, d)
    ensures var next := memory[ind[i].driverId := Some(EndTime(table, ind[i]))];
      forall d :: d in next ==> next[d] == PriorEnd(table, ind, i + 1, d)
  {
    forall d | d in memory[ind[i].driverId := Some(EndTime(table, ind[i]))] {
      PriorStep(table, ind, i, d);
    }
  }

  lemma LocationMemoryStep(ind: Individual, i: nat, memory: map<int, Option<int>>)
    requires i < |ind|
    requires forall d :: d in memory ==> memory[d] == PriorLocation(ind, i, d)
    ensures var next := memory[ind[i].driverId := Some(ind[i].route.endLocation.id)];
      forall d :: d in next ==> next[d] == PriorLocation(ind, i + 1, d)
  {
    forall d | d in memory[ind[i].driverId := Some(ind[i].route.endLocation.id)] {
      PriorStep(map[], ind, i, d);
    }
  }

  /**
   * The route at position i departs before its driver can be there: the
   * driver's previous route ends, then the transfer to this route's start and
   * the handling buffer have to fit before this departure.
   */
  predicate Late(table: Table, ind: Individual, i: nat)
    requires i < |ind|
  {
    match LastOf(ind, i, ind[i].driverId)
    case None => false
    case Some(j) =>
      GeneTime(ind[i]) <
        EndTime(table, ind[j]) + TravelTime(table, ind[j].route.endLocation.id, ind[i].route.startLocation.id) + HandlingBuffer
  }

  /** Lateness read off the per-driver memory of previous end time and end location. */
  lemma LateFromMemory(table: Table, ind: Individual, i: nat)
    requires i < |ind|
    ensures var d := ind[i].driverId;
      Late(table, ind, i) <==>
        PriorEnd(table, ind, i, d).Some? && PriorLocation(ind, i, d).Some? &&
        GeneTime(ind[i]) < PriorEnd(table, ind, i, d).value
          + TravelTime(table, PriorLocation(ind, i, d).value, ind[i].route.startLocation.id) + HandlingBuffer
  {
  }

  /** The number of late positions before n. */
  function Violations(table: Table, ind: Individual, n: nat): (c: nat)
    requires n <= |ind|
    ensures c <= n
  {
    if n == 0 then 0
    else Violations(table, ind, n - 1) + (if Late(table, ind, n - 1) then 1 else 0)
  }

  /** The score accumulated over the first n positions, one penalty at a time. */
  function Penalty(table: Table, ind: Individual, n: nat): int
    requires n <= |ind|
  {
    if n == 0 then 0
    else Penalty(table, ind, n - 1) - (if Late(table, ind, n - 1) then TimingPenalty else 0)
  }

  /** The grade of an individual: its penalties over all positions. */
  function Score(table: Table, ind: Individual): int {
    Penalty(table, ind, |ind|)
  }

  lemma PenaltyStep(table: Table, ind: Individual, i: nat)
    requires i < |ind|
    ensures Penalty(table, ind, i + 1) == Penalty(table, ind, i) - (if Late(table, ind, i) then TimingPenalty else 0)
  {
  }

  /** Subtracting a penalty per late position adds up to the penalty times the number of late positions. */
  lemma {:induction false} PenaltyCountsLate(table: Table, ind: Individual, n: nat)
    requires n <= |ind|
    ensures Penalty(table, ind, n) == -TimingPenalty * Violations(table, ind, n)
  {
    if n > 0 {
      PenaltyCountsLate(table, ind, n - 1);
    }
  }

  /** The grade is never positive and comes in steps of the timing penalty, one per late route. */
  lemma ScoreCountsLate(table: Table, ind: Individual)
    ensures Score(table, ind) == -TimingPenalty * Violations(table, ind, |ind|)
    ensures Score(table, ind) <= 0 && Score(table, ind) % TimingPenalty == 0
  {
    PenaltyCountsLate(table, ind, |ind|);
  }

  function Abs(x: real): real {
    if x < 0.0 then -x else x
  }

  /**
   * The balance part of `grade`: route counts per driver and the truncated
   * distance from the ideal share. Its guard never holds, so the score it
   * leaves is the initial 0.
   */
  method BalanceScore(drivers: seq<Driver>, routes: seq<Route>, ind: Individual) returns (score: int)
    requires |drivers| > 0
    requires Staffed(ind, drivers)
    ensures score == 0
  {
    score := 0;
    var idealPerDriver := |routes| as real / |drivers| as real;
    var driverCount: map<int, int> := map[];
    for k := 0 to |drivers|
      invariant forall m :: 0 <= m < k ==> drivers[m].id in driverCount
    {
      driverCount := driverCount[drivers[k].id := 0];
    }
    assert DriverIds(drivers) <= driverCount.Keys;
    for i := 0 to |ind|
      invariant DriverIds(drivers) <= driverCount.Keys
    {
      driverCount := driverCount[ind[i].driverId := driverCount[ind[i].driverId] + 1];
    }
    for k := 0 to |drivers|
      invariant score == 0
    {
      var delta := Abs(driverCount[drivers[k].id] as real - idealPerDriver);
      // `not {delta < 1}` tests a one-element set for emptiness: always false
      if |{delta < 1.0}| == 0 {
        score := score - (delta * BalanceWeight as real).Floor;
      }
    }
  }

  /** A dict with an empty memory (None) for every driver. */
  method NoPriorRoutes(drivers: seq<Driver>) returns (memory: map<int, Option<int>>)
    ensures memory.Keys == DriverIds(drivers)
    ensures forall d :: d in memory ==> memory[d] == None
  {
    memory := map[];
    for k := 0 to |drivers|
      invariant memory.Keys == DriverIds(drivers[..k])
      invariant forall d :: d in memory ==> memory[d] == None
    {
      assert DriverIds(drivers[..k + 1]) == DriverIds(drivers[..k]) + {drivers[k].id} by {
        assert drivers[..k + 1] == drivers[..k] + [drivers[k]];
      }
      memory := memory[drivers[k].id := None];
    }
    assert drivers[..|drivers|] == drivers;
  }

  /**
   * One pass of `grade`'s loop over the genes: position i is checked
   * against its driver's previous end time and end location, and both
   * memories move past it.
   */
  method Visit(table: Table, ind: Individual, i: nat, score: int,
               lastEndTime: map<int, Option<int>>, lastEndLoc: map<int, Option<int>>)
    returns (score': int, endTimes: map<int, Option<int>>, endLocs: map<int, Option<int>>)
    requires i < |ind|
    requires ind[i].driverId in lastEndTime && ind[i].driverId in lastEndLoc
    requires forall d :: d in lastEndTime ==> lastEndTime[d] == PriorEnd(table, ind, i, d)
    requires forall d :: d in lastEndLoc ==> lastEndLoc[d] == PriorLocation(ind, i, d)
    ensures score' == score - (if Late(table, ind, i) then TimingPenalty else 0)
    ensures endTimes.Keys == lastEndTime.Keys && endLocs.Keys == lastEndLoc.Keys
    ensures forall d :: d in endTimes ==> endTimes[d] == PriorEnd(table, ind, i + 1, d)
    ensures forall d :: d in endLocs ==> endLocs[d] == PriorLocation(ind, i + 1, d)
  {
    var driverRoute := ind[i];
    var d := driverRoute.driverId;
    var startTime := GeneTime(driverRoute);
    var travelDuration := TravelTime(table, driverRoute.route.startLocation.id, driverRoute.route.endLocation.id);
    var endTime := startTime + travelDuration;
    score' := score;
    if lastEndTime[d].Some? && lastEndLoc[d].Some? {
      var transferTime := TravelTime(table, lastEndLoc[d].value, driverRoute.route.startLocation.id);
      var expectedStart := lastEndTime[d].value + transferTime + HandlingBuffer;
      if startTime < expectedStart {
        score' := score' - TimingPenalty;
      }
    }
    LateFromMemory(table, ind, i);
    assert endTime == EndTime(table, driverRoute);
    EndMemoryStep(table, ind, i, lastEndTime);
    LocationMemoryStep(ind, i, lastEndLoc);
    endTimes := lastEndTime[d := Some(endTime)];
    endLocs := lastEndLoc[d := Some(driverRoute.route.endLocation.id)];
  }

  /** `grade` as the scheduler runs it, dict by dict. */
  method Grade(drivers: seq<Driver>, routes: seq<Route>, table: Table, ind: Individual) returns (score: int)
    requires |drivers| > 0
    requires Staffed(ind, drivers)
    ensures score == Score(table, ind)
  {
    score := BalanceScore(drivers, routes, ind);
    var lastEndTime := NoPriorRoutes(drivers);
    var lastEndLoc := NoPriorRoutes(drivers);
    for i := 0 to |ind|
      invariant score == Penalty(table, ind, i)
      invariant lastEndTime.Keys == DriverIds(drivers) && lastEndLoc.Keys == DriverIds(drivers)
      invariant forall d :: d in lastEndTime ==> lastEndTime[d] == PriorEnd(table, ind, i, d)
      invariant forall d :: d in lastEndLoc ==> lastEndLoc[d] == PriorLocation(ind, i, d)
    {
      score, lastEndTime, lastEndLoc := Visit(table, ind, i, score, lastEndTime, lastEndLoc);
      PenaltyStep(table, ind, i);
    }
  }

  lemma {:induction false} NoViolationsIffNoneLate(table: Table, ind: Individual, n: nat)
    requires n <= |ind|
    ensures Violations(table, ind, n) == 0 <==> forall i :: 0 <= i < n ==> !Late(table, ind, i)
  {
    if n > 0 {
      NoViolationsIffNoneLate(table, ind, n - 1);
    }
  }

  /** The run's guard `grade < -99` holds exactly when some route is late. */
  lemma GuardIffLate(table: Table, ind: Individual)
    ensures Score(table, ind) < -99 <==> exists i :: 0 <= i < |ind| && Late(table, ind, i)
    ensures Score(table, ind) == 0 <==> forall i :: 0 <= i < |ind| ==> !Late(table, ind, i)
  {
    NoViolationsIffNoneLate(table, ind, |ind|);
    ScoreCountsLate(table, ind);
  }

  /** A penalty needs two routes of one driver: with every driver used at most once, the grade is 0. */
  lemma DistinctDriversScoreZero(table: Table, ind: Individual)
    requires forall i, j :: 0 <= i < j < |ind| ==> ind[i].driverId != ind[j].driverId
    ensures Score(table, ind) == 0
  {
    forall i | 0 <= i < |ind|
      ensures !Late(table, ind, i)
    {
      assert LastOf(ind, i, ind[i].driverId).None?;
    }
    GuardIffLate(table, ind);
  }
}
