/**
 * The genetic operators: building a random individual, crossover of two
 * parents and mutation by one driver swap. Each method consumes draws of
 * the random source; the function beside it gives its result from the
 * stream and the position the method started at.
 */
module Operators {
  import opened Wrappers
  import opened Sorting
  import opened Records
  import opened Randomness

  /** The genes before sorting: route i gets the driver selected by the draw at pos + i. */
  function Assignment(routes: seq<Route>, drivers: seq<Driver>, stream: Stream, pos: nat): seq<Gene>
    requires |drivers| > 0
  {
    seq(|routes|, i requires 0 <= i < |routes| => Gene(routes[i], drivers[Pick(stream(pos + i), |drivers|)].id))
  }

  /** The individual `create_individual` builds from the draws at pos, pos + 1, ... */
  function NewIndividual(routes: seq<Route>, drivers: seq<Driver>, stream: Stream, pos: nat): Individual
    requires |drivers| > 0
  {
    StableSort(Assignment(routes, drivers, stream, pos), GeneTime)
  }

  /** Every gene of a new individual carries the id of an input driver. */
  lemma NewIndividualStaffed(routes: seq<Route>, drivers: seq<Driver>, stream: Stream, pos: nat)
    requires |drivers| > 0
    ensures Staffed(NewIndividual(routes, drivers, stream, pos), drivers)
  {
    var genes := Assignment(routes, drivers, stream, pos);
    forall k | 0 <= k < |genes|
      ensures genes[k].driverId in DriverIds(drivers)
    {
      InputDriverId(drivers, Pick(stream(pos + k), |drivers|));
    }
    SortKeepsStaffed(genes, drivers);
  }

  /**
   * A new individual has one gene per route in departure order, equal
   * departures in input order, and only input drivers.
   */
  lemma NewIndividualShape(routes: seq<Route>, drivers: seq<Driver>, stream: Stream, pos: nat)
    requires |drivers| > 0
    ensures WellFormed(NewIndividual(routes, drivers, stream, pos), routes, drivers)
    ensures forall v :: WithKey(RoutesOf(NewIndividual(routes, drivers, stream, pos)), Departure, v)
                        == WithKey(routes, Departure, v)
  {
    var genes := Assignment(routes, drivers, stream, pos);
    assert RoutesOf(genes) == routes;
    SortCommutes(genes);
    NewIndividualStaffed(routes, drivers, stream, pos);
    forall v {
      SortIsStable(routes, Departure, v);
    }
  }

  /** `create_individual` */
  method CreateIndividual(routes: seq<Route>, drivers: seq<Driver>, rng: RandomSource) returns (individual: Individual)
    requires |drivers| > 0
    modifies rng
    ensures rng.position == old(rng.position) + |routes|
    ensures individual == NewIndividual(routes, drivers, rng.stream, old(rng.position))
  {
    ghost var start := rng.position;
    var unsorted: seq<Gene> := [];
    for i := 0 to |routes|
      invariant rng.position == start + i
      invariant unsorted == Assignment(routes, drivers, rng.stream, start)[..i]
    {
      var k := rng.Choice(|drivers|);
      unsorted := unsorted + [Gene(routes[i], drivers[k].id)];
    }
    assert unsorted == Assignment(routes, drivers, rng.stream, start);
    individual := StableSort(unsorted, GeneTime);
    NewIndividualShape(routes, drivers, rng.stream, start);
  }

  /** The child of `crossover`: position i is parent1's gene when the draw at pos + i exceeds 0.5, else parent2's. */
  function Cross(parent1: Individual, parent2: Individual, n: nat, stream: Stream, pos: nat): Individual
    requires |parent1| >= n && |parent2| >= n
  {
    seq(n, i requires 0 <= i < n => if stream(pos + i) > 0.5 then parent1[i] else parent2[i])
  }

  /** Every position of the child comes from the same position of a parent, so conforming parents give a conforming child. */
  lemma CrossShape(parent1: Individual, parent2: Individual, order: seq<Route>, drivers: seq<Driver>, stream: Stream, pos: nat)
    requires Conforms(parent1, order, drivers) && Conforms(parent2, order, drivers)
    ensures var child := Cross(parent1, parent2, |order|, stream, pos);
      && (forall i :: 0 <= i < |order| ==> child[i] == parent1[i] || child[i] == parent2[i])
      && Conforms(child, order, drivers)
  {
    var child := Cross(parent1, parent2, |order|, stream, pos);
    assert RoutesOf(child) == order;
  }

  /** `crossover`: fills a fresh list position by position. */
  method Crossover(parent1: Individual, parent2: Individual, n: nat, rng: RandomSource) returns (child: array<Gene>)
    requires |parent1| >= n && |parent2| >= n
    modifies rng
    ensures fresh(child)
    ensures child[..] == Cross(parent1, parent2, n, rng.stream, old(rng.position))
    ensures rng.position == old(rng.position) + n
  {
    ghost var start := rng.position;
    child := new Gene[n];
    for i := 0 to n
      invariant rng.position == start + i
      invariant forall k :: 0 <= k < i ==> child[k] == Cross(parent1, parent2, n, rng.stream, start)[k]
    {
      var u := rng.Random();
      if u > 0.5 {
        child[i] := parent1[i];
      } else {
        child[i] := parent2[i];
      }
    }
  }

  /** The draw at stream position k does not fall below prob. */
  predicate Misses(stream: Stream, k: nat, prob: real) {
    stream(k) >= prob
  }

  /** The first position in [from, n) whose draw (at pos + position) falls below prob. */
  function FirstHit(stream: Stream, pos: nat, prob: real, n: nat, from: nat): (h: Option<nat>)
    requires from <= n
    decreases n - from
    ensures h.Some? ==> from <= h.value < n && !Misses(stream, pos + h.value, prob)
    ensures h.Some? ==> forall k :: pos + from <= k < pos + h.value ==> Misses(stream, k, prob)
    ensures h.None? ==> forall k :: pos + from <= k < pos + n ==> Misses(stream, k, prob)
  {
    if from == n then None
    else if !Misses(stream, pos + from, prob) then Some(from)
    else FirstHit(stream, pos, prob, n, from + 1)
  }

  /** Scanning from position from, the first draw below prob is found. */
  lemma {:induction false} FirstHitAt(stream: Stream, pos: nat, prob: real, n: nat, from: nat, i: nat)
    requires from <= i < n
    requires forall k :: pos + from <= k < pos + i ==> Misses(stream, k, prob)
    requires !Misses(stream, pos + i, prob)
    ensures FirstHit(stream, pos, prob, n, from) == Some(i)
    decreases i - from
  {
    if from < i {
      assert Misses(stream, pos + from, prob);
      FirstHitAt(stream, pos, prob, n, from + 1, i);
    }
  }

  /** Exchanging the driver ids of positions i and j, as the tuple assignment does (i == j changes nothing). */
  function SwapDrivers(ind: Individual, i: nat, j: nat): (r: Individual)
    requires i < |ind| && j < |ind|
    ensures |r| == |ind|
    ensures r[i].driverId == ind[j].driverId && r[j].driverId == ind[i].driverId
    ensures r[i].route == ind[i].route && r[j].route == ind[j].route
    ensures forall k :: 0 <= k < |ind| && k != i && k != j ==> r[k] == ind[k]
  {
    ind[i := Gene(ind[i].route, ind[j].driverId)][j := Gene(ind[j].route, ind[i].driverId)]
  }

  /** A swap keeps every route in place and the multiset of driver ids. */
  lemma SwapKeeps(ind: Individual, i: nat, j: nat)
    requires i < |ind| && j < |ind|
    ensures RoutesOf(SwapDrivers(ind, i, j)) == RoutesOf(ind)
    ensures multiset(DriversOf(SwapDrivers(ind, i, j))) == multiset(DriversOf(ind))
  {
    var r := SwapDrivers(ind, i, j);
    assert DriversOf(r) == DriversOf(ind)[i := ind[j].driverId][j := ind[i].driverId];
  }


  /**
   * `mutate`: the first position whose draw falls below prob swaps its
   * driver with a position selected by the next draw, and the scan stops;
   * with no such position the individual is unchanged. Also gives the stream
   * position after the call.
   */
  function Mutation(ind: Individual, prob: real, stream: Stream, pos: nat): (m: (Individual, nat))
    ensures |m.0| == |ind|
  {
    match FirstHit(stream, pos, prob, |ind|, 0)
    case None => (ind, pos + |ind|)
    case Some(h) => (SwapDrivers(ind, h, Pick(stream(pos + h + 1), |ind|)), pos + h + 2)
  }

  /**
   * Mutation keeps every route in place and the multiset of driver ids,
   * changes at most two positions, and so keeps an individual conforming.
   */
  lemma MutationShape(ind: Individual, prob: real, stream: Stream, pos: nat, order: seq<Route>, drivers: seq<Driver>)
    ensures var r := Mutation(ind, prob, stream, pos).0;
      && |r| == |ind| && RoutesOf(r) == RoutesOf(ind)
      && multiset(DriversOf(r)) == multiset(DriversOf(ind))
      && (forall a, b, c :: 0 <= a < b < c < |ind| ==> r[a] == ind[a] || r[b] == ind[b] || r[c] == ind[c])
      && (Conforms(ind, order, drivers) ==> Conforms(r, order, drivers))
  {
    var r := Mutation(ind, prob, stream, pos).0;
    if r != ind {
      var h := FirstHit(stream, pos, prob, |ind|, 0).value;
      var j := Pick(stream(pos + h + 1), |ind|);
      SwapKeeps(ind, h, j);
      if Conforms(ind, order, drivers) {
        forall k | 0 <= k < |r|
          ensures r[k].driverId in DriverIds(drivers)
        {
          if k == h {
            assert r[k].driverId == ind[j].driverId;
          } else if k == j {
            assert r[k].driverId == ind[h].driverId;
          }
        }
      }
    }
  }

  /** When the draw at position i is the first to fall below prob, mutation swaps i with the position the next draw selects. */
  lemma MutationAt(ind: Individual, prob: real, stream: Stream, pos: nat, i: nat)
    requires i < |ind|
    requires forall k :: pos <= k < pos + i ==> Misses(stream, k, prob)
    requires !Misses(stream, pos + i, prob)
    ensures Mutation(ind, prob, stream, pos) == (SwapDrivers(ind, i, Pick(stream(pos + i + 1), |ind|)), pos + i + 2)
  {
    FirstHitAt(stream, pos, prob, |ind|, 0, i);
  }

  /** When no draw falls below prob, mutation changes nothing. */
  lemma MutationNone(ind: Individual, prob: real, stream: Stream, pos: nat)
    requires forall k :: pos <= k < pos + |ind| ==> Misses(stream, k, prob)
    ensures Mutation(ind, prob, stream, pos) == (ind, pos + |ind|)
  {
    assert FirstHit(stream, pos, prob, |ind|, 0).None?;
  }

  /** `mutate`, in place on the child list. */
  method Mutate(individual: array<Gene>, prob: real, rng: RandomSource)
    modifies individual, rng
    ensures (individual[..], rng.position) == Mutation(old(individual[..]), prob, rng.stream, old(rng.position))
  {
    ghost var start := rng.position;
    ghost var before := individual[..];
    var i := 0;
    while i < individual.Length
      invariant 0 <= i <= individual.Length
      invariant rng.position == start + i
      invariant individual[..] == before
      invariant forall k :: start <= k < start + i ==> Misses(rng.stream, k, prob)
    {
      var u := rng.Random();
      if u < prob {
        var j := rng.Choice(individual.Length);
        var mine, theirs := individual[i].driverId, individual[j].driverId;
        individual[i] := Gene(individual[i].route, theirs);
        individual[j] := Gene(individual[j].route, mine);
        assert individual[..] == SwapDrivers(before, i, j);
        MutationAt(before, prob, rng.stream, start, i);
        return;
      }
      i := i + 1;
    }
    MutationNone(before, prob, rng.stream, start);
  }
}
