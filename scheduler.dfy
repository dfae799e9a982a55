/**
 * The whole run of the scheduler (`run_genetic_algorithm`): the input
 * checks, the initial population, the generations, the choice of the best
 * individual, the feasibility guard and the schedule of every driver.
 */
module Scheduler {
  import opened Wrappers
  import opened Clock
  import opened Sorting
  import opened TravelTimes
  import opened Records
  import opened Fitness
  import opened Randomness
  import opened Operators
  import opened Evolution

  /** Why a run produces no schedule; each is a ValueError of the source. */
  datatype Error = MissingData | MalformedTime | InsufficientDrivers

  /** One route in a driver's schedule. */
  datatype ScheduleEntry = ScheduleEntry(routeId: int, start: string, end: string, time: string, endTime: string)

  /** The schedule of one driver, by name. */
  datatype DriverSchedule = DriverSchedule(driver: string, routes: seq<ScheduleEntry>)

  /** Ranking and `max` grade individuals by their score. */
  function Grader(table: Table): Individual -> int {
    ind => Score(table, ind)
  }

  /** The entry a gene contributes: its route, departure and formatted arrival. */
  function Entry(table: Table, g: Gene): ScheduleEntry {
    ScheduleEntry(g.route.id, g.route.startLocation.name, g.route.endLocation.name, g.route.time,
                  FormatTime(EndTime(table, g)))
  }

  /** An entry names its route and departure, and its end time reads back as the arrival on the clock. */
  lemma EntryReadsBack(table: Table, g: Gene)
    ensures var e := Entry(table, g);
      && e.routeId == g.route.id && e.time == g.route.time
      && e.start == g.route.startLocation.name && e.end == g.route.endLocation.name
      && ParseTime(e.endTime) == Some(EndTime(table, g) % MinutesPerDay)
  {
    ParseFormat(EndTime(table, g));
  }

  /** The genes given to driver `id`, in the individual's order. */
  function Assigned(ind: Individual, id: int): (gs: seq<Gene>)
    ensures |gs| <= |ind|
    ensures forall j :: 0 <= j < |gs| ==> gs[j].driverId == id
  {
    if ind == [] then []
    else
      var last := ind[|ind| - 1];
      Assigned(ind[..|ind| - 1], id) + (if last.driverId == id then [last] else [])
  }

  /** The entries of a sequence of genes, position by position. */
  function Entries(table: Table, gs: seq<Gene>): (es: seq<ScheduleEntry>)
    ensures |es| == |gs|
  {
    if gs == [] then [] else Entries(table, gs[..|gs| - 1]) + [Entry(table, gs[|gs| - 1])]
  }

  /** The j-th entry is the entry of the j-th gene. */
  lemma {:induction false} EntriesAt(table: Table, gs: seq<Gene>, j: nat)
    requires j < |gs|
    ensures Entries(table, gs)[j] == Entry(table, gs[j])
  {
    if j < |gs| - 1 {
      EntriesAt(table, gs[..|gs| - 1], j);
    }
  }

  /** The result list: one schedule per input driver, in input order. */
  function Project(table: Table, best: Individual, drivers: seq<Driver>): (s: seq<DriverSchedule>)
    ensures |s| == |drivers|
  {
    seq(|drivers|, k requires 0 <= k < |drivers| =>
      DriverSchedule(drivers[k].name, Entries(table, Assigned(best, drivers[k].id))))
  }

  /** `max(population, key=grade)`: the first individual of the highest score. */
  function Best(table: Table, population: seq<Individual>): Individual
    requires |population| > 0
  {
    population[BestIndex(Grader(table), population)]
  }

  /**
   * The end of a run, given its last population: the best individual is
   * the answer, unless its score is below -99.
   */
  function Outcome(drivers: seq<Driver>, table: Table, population: seq<Individual>): Result<seq<DriverSchedule>, Error>
    requires |population| > 0
  {
    var best := Best(table, population);
    if Score(table, best) < -99 then Failure(InsufficientDrivers)
    else Success(Project(table, best, drivers))
  }

  /**
   * A run fails on a complete input exactly when the best individual has a
   * late route; a schedule that is returned has no late route at all.
   */
  lemma OutcomeGuard(drivers: seq<Driver>, table: Table, population: seq<Individual>)
    requires |population| > 0
    ensures Outcome(drivers, table, population).Failure? <==>
      exists i :: 0 <= i < |Best(table, population)| && Late(table, Best(table, population), i)
    ensures Outcome(drivers, table, population).Failure? ==>
      Outcome(drivers, table, population).error == InsufficientDrivers
    ensures Outcome(drivers, table, population).Success? ==>
      forall i :: 0 <= i < |Best(table, population)| ==> !Late(table, Best(table, population), i)
  {
    GuardIffLate(table, Best(table, population));
  }

  /** A gene is assigned to driver `id` exactly when it is in the individual with that driver id. */
  lemma {:induction false} AssignedMembers(ind: Individual, id: int, g: Gene)
    ensures g in Assigned(ind, id) <==> g in ind && g.driverId == id
  {
    if ind != [] {
      var init := ind[..|ind| - 1];
      AssignedMembers(init, id, g);
      assert ind == init + [ind[|ind| - 1]];
    }
  }

  /** The genes of one driver keep the individual's departure order. */
  lemma {:induction false} AssignedInOrder(ind: Individual, id: int)
    requires SortedBy(ind, GeneTime)
    ensures SortedBy(Assigned(ind, id), GeneTime)
  {
    if ind != [] {
      var init := ind[..|ind| - 1];
      var last := ind[|ind| - 1];
      assert SortedBy(init, GeneTime);
      AssignedInOrder(init, id);
      if last.driverId == id {
        var before := Assigned(init, id);
        forall j | 0 <= j < |before|
          ensures GeneTime(before[j]) <= GeneTime(last)
        {
          AssignedMembers(init, id, before[j]);
          assert before[j] in before;
          var k :| 0 <= k < |init| && init[k] == before[j];
        }
      }
    }
  }

  /** How many of the drivers carry the id. */
  function Holders(drivers: seq<Driver>, id: int): nat {
    if drivers == [] then 0
    else Holders(drivers[..|drivers| - 1], id) + (if drivers[|drivers| - 1].id == id then 1 else 0)
  }

  /** Driver ids are unique, as primary keys are. */
  predicate DistinctIds(drivers: seq<Driver>) {
    forall i, j :: 0 <= i < j < |drivers| ==> drivers[i].id != drivers[j].id
  }

  /** The ids of a list of drivers grow by the id of each driver added at the end. */
  lemma IdsStep(drivers: seq<Driver>)
    requires drivers != []
    ensures DriverIds(drivers) == DriverIds(drivers[..|drivers| - 1]) + {drivers[|drivers| - 1].id}
  {
    var init := drivers[..|drivers| - 1];
    assert drivers == init + [drivers[|drivers| - 1]];
  }

  /** Among drivers with unique ids, the id of an input driver is held exactly once. */
  lemma {:induction false} HeldOnce(drivers: seq<Driver>, id: int)
    requires DistinctIds(drivers)
    ensures Holders(drivers, id) == (if id in DriverIds(drivers) then 1 else 0)
  {
    if drivers != [] {
      var init := drivers[..|drivers| - 1];
      var last := drivers[|drivers| - 1];
      assert DistinctIds(init);
      HeldOnce(init, id);
      IdsStep(drivers);
      if last.id == id {
        forall d | d in init
          ensures d.id != id
        {
          var i :| 0 <= i < |init| && init[i] == d;
          assert drivers[i] == d;
        }
        assert id !in DriverIds(init);
      }
    }
  }

  /** The number of entries over all schedules. */
  function Scheduled(s: seq<DriverSchedule>): nat {
    if s == [] then 0 else Scheduled(s[..|s| - 1]) + |s[|s| - 1].routes|
  }

  /** The number of genes given to any of the drivers. */
  function Load(ind: Individual, drivers: seq<Driver>): nat {
    if drivers == [] then 0 else Load(ind, drivers[..|drivers| - 1]) + |Assigned(ind, drivers[|drivers| - 1].id)|
  }

  /** One more gene adds one to the load of every driver holding its id. */
  lemma {:induction false} LoadStep(ind: Individual, g: Gene, drivers: seq<Driver>)
    ensures Load(ind + [g], drivers) == Load(ind, drivers) + Holders(drivers, g.driverId)
  {
    assert (ind + [g])[..|ind|] == ind;
    if drivers != [] {
      LoadStep(ind, g, drivers[..|drivers| - 1]);
    }
  }

  /** With unique driver ids, every gene of a staffed individual is given to exactly one driver. */
  lemma {:induction false} LoadIsSize(ind: Individual, drivers: seq<Driver>)
    requires DistinctIds(drivers) && Staffed(ind, drivers)
    ensures Load(ind, drivers) == |ind|
  {
    if ind == [] {
      LoadOfEmpty(drivers);
    } else {
      var init := ind[..|ind| - 1];
      var last := ind[|ind| - 1];
      assert ind == init + [last];
      LoadIsSize(init, drivers);
      LoadStep(init, last, drivers);
      HeldOnce(drivers, last.driverId);
    }
  }

  /** Nobody carries a gene of the empty individual. */
  lemma {:induction false} LoadOfEmpty(drivers: seq<Driver>)
    ensures Load([], drivers) == 0
  {
    if drivers != [] {
      LoadOfEmpty(drivers[..|drivers| - 1]);
    }
  }

  /** The schedules list as many entries as their drivers carry genes. */
  lemma {:induction false} ScheduledIsLoad(table: Table, best: Individual, drivers: seq<Driver>)
    ensures Scheduled(Project(table, best, drivers)) == Load(best, drivers)
  {
    if drivers != [] {
      var init := drivers[..|drivers| - 1];
      assert Project(table, best, drivers)[..|init|] == Project(table, best, init);
      ScheduledIsLoad(table, best, init);
    }
  }

  /** The entry of every listed gene is among the entries. */
  lemma EntryListed(table: Table, gs: seq<Gene>, g: Gene)
    requires g in gs
    ensures Entry(table, g) in Entries(table, gs)
  {
    var j :| 0 <= j < |gs| && gs[j] == g;
    EntriesAt(table, gs, j);
  }

  /** A gene of a staffed individual is in the list of the driver named by its id, and its entry in that driver's schedule. */
  lemma GeneListed(table: Table, best: Individual, drivers: seq<Driver>, i: nat)
    requires Staffed(best, drivers) && i < |best|
    ensures exists k :: (0 <= k < |drivers| && best[i] in Assigned(best, drivers[k].id) &&
                         Entry(table, best[i]) in Project(table, best, drivers)[k].routes)
  {
    var g := best[i];
    assert g.driverId in DriverIds(drivers);
    var d :| d in drivers && d.id == g.driverId;
    var k :| 0 <= k < |drivers| && drivers[k] == d;
    AssignedMembers(best, d.id, g);
    EntryListed(table, Assigned(best, d.id), g);
  }

  /**
   * Coverage: with unique driver ids, a schedule built from a staffed
   * individual lists every one of its genes, each in the list of exactly one
   * driver, and lists nothing more.
   */
  lemma Coverage(table: Table, best: Individual, drivers: seq<Driver>)
    requires DistinctIds(drivers) && Staffed(best, drivers)
    ensures Scheduled(Project(table, best, drivers)) == |best|
    ensures forall i :: 0 <= i < |best| ==>
      exists k :: (0 <= k < |drivers| && best[i] in Assigned(best, drivers[k].id) &&
                   Entry(table, best[i]) in Project(table, best, drivers)[k].routes)
    ensures forall i, k, k' ::
      (0 <= i < |best| && 0 <= k < |drivers| && 0 <= k' < |drivers| &&
       best[i] in Assigned(best, drivers[k].id) && best[i] in Assigned(best, drivers[k'].id)) ==> k == k'
  {
    ScheduledIsLoad(table, best, drivers);
    LoadIsSize(best, drivers);
    forall i | 0 <= i < |best| {
      GeneListed(table, best, drivers, i);
    }
  }

  /** Looking at one more individual moves the first best one as `max` does. */
  lemma BestStep(grade: Individual -> int, population: seq<Individual>, k: nat)
    requires 0 < k < |population|
    ensures var b := BestIndex(grade, population[..k]);
      BestIndex(grade, population[..k + 1]) == if grade(population[k]) > grade(population[b]) then k else b
  {
    assert population[..k + 1][..k] == population[..k];
  }

  /** Looking at one more gene assigns it when it belongs to the driver. */
  lemma AssignedStep(best: Individual, j: nat, id: int)
    requires j < |best|
    ensures Assigned(best[..j + 1], id) == Assigned(best[..j], id) + (if best[j].driverId == id then [best[j]] else [])
  {
    assert best[..j + 1][..j] == best[..j];
  }

  /** The entries of one more gene end with its entry. */
  lemma EntriesSnoc(table: Table, gs: seq<Gene>, g: Gene)
    ensures Entries(table, gs + [g]) == Entries(table, gs) + [Entry(table, g)]
  {
    assert (gs + [g])[..|gs|] == gs;
  }

  /** Looking at one more gene adds its entry when it belongs to the driver. */
  lemma EntriesStep(table: Table, best: Individual, j: nat, id: int)
    requires j < |best|
    ensures Entries(table, Assigned(best[..j + 1], id)) ==
      Entries(table, Assigned(best[..j], id)) + (if best[j].driverId == id then [Entry(table, best[j])] else [])
  {
    var before := Assigned(best[..j], id);
    AssignedStep(best, j, id);
    if best[j].driverId == id {
      EntriesSnoc(table, before, best[j]);
    } else {
      assert before + [] == before;
    }
  }

  /** `max(population, key=grade)`: the first individual of the highest grade. */
  method FindBest(drivers: seq<Driver>, routes: seq<Route>, table: Table, population: seq<Individual>)
    returns (bestAt: nat)
    requires |drivers| > 0 && |population| > 0
    requires forall k :: 0 <= k < |population| ==> Staffed(population[k], drivers)
    ensures bestAt == BestIndex(Grader(table), population)
  {
    bestAt := 0;
    var bestGrade := Grade(drivers, routes, table, population[0]);
    for k := 1 to |population|
      invariant bestAt < k && bestAt == BestIndex(Grader(table), population[..k])
      invariant bestGrade == Score(table, population[bestAt])
    {
      bestAt, bestGrade := Challenge(drivers, routes, table, population, k, bestAt, bestGrade);
    }
    assert population[..|population|] == population;
  }

  /** One step of `max`: the next individual replaces the best so far only when it grades strictly higher. */
  method Challenge(drivers: seq<Driver>, routes: seq<Route>, table: Table, population: seq<Individual>,
                   k: nat, bestAt: nat, bestGrade: int)
    returns (bestAt': nat, bestGrade': int)
    requires |drivers| > 0 && 0 < k < |population| && Staffed(population[k], drivers)
    requires bestAt < k && bestAt == BestIndex(Grader(table), population[..k])
    requires bestGrade == Score(table, population[bestAt])
    ensures bestAt' < k + 1 && bestAt' == BestIndex(Grader(table), population[..k + 1])
    ensures bestGrade' == Score(table, population[bestAt'])
  {
    var g := Grade(drivers, routes, table, population[k]);
    BestStep(Grader(table), population, k);
    bestAt', bestGrade' := bestAt, bestGrade;
    if g > bestGrade {
      bestAt', bestGrade' := k, g;
    }
  }

  /** One line of a driver's schedule: the route's fields and its end time on the clock. */
  method RouteEntry(table: Table, gene: Gene) returns (entry: ScheduleEntry)
    ensures entry.routeId == gene.route.id && entry.time == gene.route.time
    ensures entry.start == gene.route.startLocation.name && entry.end == gene.route.endLocation.name
    ensures ParseTime(entry.endTime) == Some(EndTime(table, gene) % MinutesPerDay)
    ensures entry == Entry(table, gene)
  {
    var startTime := GeneTime(gene);
    var travelDuration := TravelTime(table, gene.route.startLocation.id, gene.route.endLocation.id);
    var endTime := startTime + travelDuration;
    entry := ScheduleEntry(gene.route.id, gene.route.startLocation.name, gene.route.endLocation.name,
                           gene.route.time, FormatTime(endTime));
    ParseFormat(endTime);
  }

  /** The routes of one driver, read off the best individual in its order. */
  method DriverRoutes(table: Table, best: Individual, id: int) returns (entries: seq<ScheduleEntry>)
    ensures entries == Entries(table, Assigned(best, id))
  {
    entries := [];
    for j := 0 to |best|
      invariant entries == Entries(table, Assigned(best[..j], id))
    {
      if best[j].driverId == id {
        var entry := RouteEntry(table, best[j]);
        entries := entries + [entry];
      }
      EntriesStep(table, best, j, id);
    }
    assert best[..|best|] == best;
  }

  /** One schedule per input driver, in input order, each with that driver's routes. */
  method Schedules(table: Table, best: Individual, drivers: seq<Driver>) returns (result: seq<DriverSchedule>)
    ensures result == Project(table, best, drivers)
  {
    result := [];
    for k := 0 to |drivers|
      invariant |result| == k
      invariant forall m :: 0 <= m < k ==>
        result[m] == DriverSchedule(drivers[m].name, Entries(table, Assigned(best, drivers[m].id)))
    {
      var entries := DriverRoutes(table, best, drivers[k].id);
      result := result + [DriverSchedule(drivers[k].name, entries)];
    }
  }

  /** The end of a run: the best individual, the feasibility guard, the schedules. */
  method Conclude(drivers: seq<Driver>, routes: seq<Route>, table: Table, population: seq<Individual>)
    returns (r: Result<seq<DriverSchedule>, Error>)
    requires |drivers| > 0 && |population| > 0
    requires forall k :: 0 <= k < |population| ==> Staffed(population[k], drivers)
    ensures r == Outcome(drivers, table, population)
  {
    var bestAt := FindBest(drivers, routes, table, population);
    var best := population[bestAt];
    var score := Grade(drivers, routes, table, best);
    if score < -99 {
      return Failure(InsufficientDrivers);
    }
    var result := Schedules(table, best, drivers);
    return Success(result);
  }

  /** Some input list is empty: the source's "missing data" error. */
  predicate Missing(drivers: seq<Driver>, locations: seq<Location>, edges: seq<Edge>, routes: seq<Route>) {
    drivers == [] || locations == [] || edges == [] || routes == []
  }

  /** `create_individual` as a function of the position of its first draw. */
  function Creation(routes: seq<Route>, drivers: seq<Driver>, stream: Stream): nat -> Individual
    requires |drivers| > 0
  {
    (at: nat) => NewIndividual(routes, drivers, stream, at)
  }

  /**
   * The population holds the individuals created one after the other from
   * draw position `pos` on, each taking `width` draws, the last one ending
   * at position `end`.
   */
  predicate Drawn(population: seq<Individual>, create: nat -> Individual, width: nat, pos: nat, end: nat)
    decreases |population|
  {
    if |population| == 0 then end == pos
    else population[0] == create(pos) && Drawn(population[1..], create, width, pos + width, end)
  }

  /** Creating one more individual extends the population by it. */
  lemma {:induction false} DrawnStep(population: seq<Individual>, create: nat -> Individual, width: nat, pos: nat, end: nat,
                                     next: Individual)
    requires Drawn(population, create, width, pos, end) && next == create(end)
    ensures Drawn(population + [next], create, width, pos, end + width)
    decreases |population|
  {
    if |population| > 0 {
      assert (population + [next])[1..] == population[1..] + [next];
      DrawnStep(population[1..], create, width, pos + width, end, next);
    }
  }

  /** A population of k individuals takes k times `width` draws. */
  lemma {:induction false} DrawnEnd(population: seq<Individual>, create: nat -> Individual, width: nat, pos: nat, end: nat)
    requires Drawn(population, create, width, pos, end)
    ensures end == pos + |population| * width
    decreases |population|
  {
    if |population| > 0 {
      var n := |population| - 1;
      DrawnEnd(population[1..], create, width, pos + width, end);
      assert width + n * width == (n + 1) * width;
    }
  }

  /** Individual k of the population is the one created from k times `width` draws in. */
  lemma {:induction false} DrawnAt(population: seq<Individual>, create: nat -> Individual, width: nat, pos: nat, end: nat,
                                   k: nat, at: nat)
    requires Drawn(population, create, width, pos, end)
    requires k < |population| && at == pos + k * width
    ensures population[k] == create(at)
    decreases |population|
  {
    if k > 0 {
      assert at == (pos + width) + (k - 1) * width;
      DrawnAt(population[1..], create, width, pos + width, end, k - 1, at);
    }
  }

  /** A population of individuals that each conform is sound. */
  lemma {:induction false} DrawnSound(population: seq<Individual>, create: nat -> Individual, width: nat, pos: nat, end: nat,
                                      order: seq<Route>, drivers: seq<Driver>)
    requires Drawn(population, create, width, pos, end)
    requires forall at :: Conforms(create(at), order, drivers)
    ensures Sound(population, order, drivers)
    decreases |population|
  {
    if |population| > 0 {
      var rest := population[1..];
      DrawnSound(rest, create, width, pos + width, end, order, drivers);
      assert forall k :: 0 < k < |population| ==> population[k] == rest[k - 1];
    }
  }

  /** Every created individual has each route once, in departure order, with an input driver. */
  lemma CreationConforms(routes: seq<Route>, drivers: seq<Driver>, stream: Stream)
    requires |drivers| > 0
    ensures forall at :: Conforms(Creation(routes, drivers, stream)(at), RouteOrder(routes), drivers)
  {
    forall at {
      NewIndividualShape(routes, drivers, stream, at);
    }
  }

  /** `[create_individual() for _ in range(size)]`. */
  method Seed(routes: seq<Route>, drivers: seq<Driver>, size: nat, rng: RandomSource) returns (population: seq<Individual>)
    requires |drivers| > 0
    modifies rng
    ensures |population| == size
    ensures Drawn(population, Creation(routes, drivers, rng.stream), |routes|, old(rng.position), rng.position)
  {
    ghost var start := rng.position;
    ghost var create := Creation(routes, drivers, rng.stream);
    ghost var end := start;
    population := [];
    while |population| < size
      invariant |population| <= size
      invariant rng.position == end
      invariant Drawn(population, create, |routes|, start, end)
    {
      var individual := CreateIndividual(routes, drivers, rng);
      assert individual == create(end);
      DrawnStep(population, create, |routes|, start, end, individual);
      population, end := population + [individual], end + |routes|;
    }
  }

  /** `for generation in range(generations): population = evolve(population)`. */
  method Generations(grade: Individual -> int, population: seq<Individual>, order: seq<Route>, drivers: seq<Driver>,
                     params: Params, rng: RandomSource)
    returns (final: seq<Individual>)
    requires params.populationSize >= 5 && |population| == params.populationSize
    requires Sound(population, order, drivers)
    modifies rng
    ensures |final| == params.populationSize && Sound(final, order, drivers)
    ensures BestScore(grade, final) >= BestScore(grade, population)
  {
    final := population;
    for generation := 0 to params.generations
      invariant |final| == params.populationSize && Sound(final, order, drivers)
      invariant BestScore(grade, final) >= BestScore(grade, population)
    {
      final := Evolve(grade, final, order, drivers, params, rng);
    }
  }

  /**
   * `run_genetic_algorithm`: 200 random individuals, 1000 generations, then
   * the best individual's schedule. `initial` and `final` are the first and
   * the last population.
   */
  method Run(drivers: seq<Driver>, locations: seq<Location>, edges: seq<Edge>, routes: seq<Route>, rng: RandomSource)
    returns (r: Result<seq<DriverSchedule>, Error>, ghost initial: seq<Individual>, ghost final: seq<Individual>)
    modifies rng
    ensures r == Failure(MissingData) <==> Missing(drivers, locations, edges, routes)
    ensures Missing(drivers, locations, edges, routes) ==> rng.position == old(rng.position)
    ensures r == Failure(MalformedTime) <==> !Missing(drivers, locations, edges, routes) && !TimesWellFormed(routes)
    ensures r == Failure(MalformedTime) ==> rng.position == old(rng.position) + |routes|
    ensures !Missing(drivers, locations, edges, routes) && TimesWellFormed(routes) ==>
      && |initial| == Defaults.populationSize
      && (exists seeded :: Drawn(initial, Creation(routes, drivers, rng.stream), |routes|, old(rng.position), seeded))
      && |final| == Defaults.populationSize
      && Sound(final, RouteOrder(routes), drivers)
      && BestScore(Grader(TableOf(edges)), final) >= BestScore(Grader(TableOf(edges)), initial)
      && r == Outcome(drivers, TableOf(edges), final)
  {
    initial, final := [], [];
    if Missing(drivers, locations, edges, routes) {
      return Failure(MissingData), initial, final;
    }
    if !TimesWellFormed(routes) {
      // the first individual's drivers are drawn before sorting it parses the times
      var _ := CreateIndividual(routes, drivers, rng);
      return Failure(MalformedTime), initial, final;
    }
    var population := Seed(routes, drivers, Defaults.populationSize, rng);
    ghost var seeded := rng.position;
    CreationConforms(routes, drivers, rng.stream);
    DrawnSound(population, Creation(routes, drivers, rng.stream), |routes|, old(rng.position), seeded, RouteOrder(routes), drivers);
    var table := BuildTable(edges);
    var evolved := Generations(Grader(table), population, RouteOrder(routes), drivers, Defaults, rng);
    r := Conclude(drivers, routes, table, evolved);
    initial, final := population, evolved;
  }
}
