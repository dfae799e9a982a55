/**
 * The scheduler's inputs and its candidate solutions. A route keeps its
 * departure as the stored "HH:MM" string; a gene is one entry of an
 * individual (the per-route dict of the scheduler): the route's data and
 * the driver it is given to.
 */
module Records {
  import opened Wrappers
  import opened Clock
  import opened Sorting
  import opened TravelTimes

  datatype Driver = Driver(id: int, name: string)

  datatype Location = Location(id: int, name: string)

  datatype Route = Route(id: int, startLocation: Location, endLocation: Location, time: string)

  datatype Gene = Gene(route: Route, driverId: int)

  /** One candidate assignment: a gene per route. */
  type Individual = seq<Gene>

  /** Minutes after midnight of the departure; only consulted once every time has parsed. */
  function Departure(r: Route): int {
    ParseTime(r.time).GetOr(0)
  }

  predicate TimesWellFormed(routes: seq<Route>) {
    forall i :: 0 <= i < |routes| ==> ParseTime(routes[i].time).Some?
  }

  function GeneTime(g: Gene): int {
    Departure(g.route)
  }

  /** The moment the gene's route arrives at its end location. */
  function EndTime(table: Table, g: Gene): int {
    GeneTime(g) + TravelTime(table, g.route.startLocation.id, g.route.endLocation.id)
  }

  function RoutesOf(ind: Individual): (rs: seq<Route>)
    ensures |rs| == |ind| && forall i :: 0 <= i < |ind| ==> rs[i] == ind[i].route
  {
    seq(|ind|, i requires 0 <= i < |ind| => ind[i].route)
  }

  function DriversOf(ind: Individual): (ds: seq<int>)
    ensures |ds| == |ind| && forall i :: 0 <= i < |ind| ==> ds[i] == ind[i].driverId
  {
    seq(|ind|, i requires 0 <= i < |ind| => ind[i].driverId)
  }

  function DriverIds(drivers: seq<Driver>): set<int> {
    set d | d in drivers :: d.id
  }

  /** The id of every input driver is among the driver ids. */
  lemma InputDriverId(drivers: seq<Driver>, k: nat)
    requires k < |drivers|
    ensures drivers[k].id in DriverIds(drivers)
  {
    assert drivers[k] in drivers;
  }

  /** Every gene names a driver of the input. */
  predicate Staffed(ind: Individual, drivers: seq<Driver>) {
    forall i :: 0 <= i < |ind| ==> ind[i].driverId in DriverIds(drivers)
  }

  /** Sorting genes keeps them staffed. */
  lemma SortKeepsStaffed(gs: seq<Gene>, drivers: seq<Driver>)
    requires Staffed(gs, drivers)
    ensures Staffed(StableSort(gs, GeneTime), drivers)
  {
    var sorted := StableSort(gs, GeneTime);
    forall i | 0 <= i < |sorted|
      ensures sorted[i].driverId in DriverIds(drivers)
    {
      assert sorted[i] in multiset(gs);
      var k :| 0 <= k < |gs| && gs[k] == sorted[i];
    }
  }

  /** The order in which every individual lists the routes: stable by departure. */
  function RouteOrder(routes: seq<Route>): seq<Route> {
    StableSort(routes, Departure)
  }

  /** Position i holds the i-th route of `order`, and every driver id comes from the input drivers. */
  predicate Conforms(ind: Individual, order: seq<Route>, drivers: seq<Driver>) {
    RoutesOf(ind) == order && Staffed(ind, drivers)
  }

  /**
   * The invariant every individual of every population keeps: it conforms
   * to RouteOrder, so all individuals agree position by position.
   */
  predicate WellFormed(ind: Individual, routes: seq<Route>, drivers: seq<Driver>) {
    Conforms(ind, RouteOrder(routes), drivers)
  }

  lemma {:induction false} InsertCommutes(g: Gene, gs: seq<Gene>)
    requires SortedBy(gs, GeneTime)
    ensures SortedBy(RoutesOf(gs), Departure)
    ensures RoutesOf(Insert(g, gs, GeneTime)) == Insert(g.route, RoutesOf(gs), Departure)
  {
    var rs := RoutesOf(gs);
    assert forall i :: 0 <= i < |gs| ==> Departure(rs[i]) == GeneTime(gs[i]);
    if gs != [] {
      assert RoutesOf(gs[1..]) == rs[1..];
      if GeneTime(g) < GeneTime(gs[0]) {
        assert RoutesOf([g] + gs) == [g.route] + rs;
      } else {
        InsertCommutes(g, gs[1..]);
        var rest := Insert(g, gs[1..], GeneTime);
        assert RoutesOf([gs[0]] + rest) == [gs[0].route] + RoutesOf(rest);
      }
    }
  }

  /** Sorting the genes by time puts their routes in the same order as sorting the routes. */
  lemma {:induction false} SortCommutes(gs: seq<Gene>)
    ensures RoutesOf(StableSort(gs, GeneTime)) == StableSort(RoutesOf(gs), Departure)
  {
    if gs != [] {
      var init := gs[..|gs| - 1];
      assert RoutesOf(gs)[..|gs| - 1] == RoutesOf(init);
      SortCommutes(init);
      InsertCommutes(gs[|gs| - 1], StableSort(init, GeneTime));
    }
  }

  /** A well-formed individual is in departure order and holds each input route as often as the input does. */
  lemma WellFormedShape(ind: Individual, routes: seq<Route>, drivers: seq<Driver>)
    requires WellFormed(ind, routes, drivers)
    ensures |ind| == |routes|
    ensures SortedBy(ind, GeneTime)
    ensures multiset(RoutesOf(ind)) == multiset(routes)
  {
    var rs := RouteOrder(routes);
    assert forall i :: 0 <= i < |ind| ==> GeneTime(ind[i]) == Departure(rs[i]);
  }
}
