/**
 * One generation of the search (`evolve`) and the repetition of it: the
 * population is ranked by score, the best fifth is carried over unchanged
 * and the rest is filled with children of two parents picked from the best
 * quarter, each crossed over and mutated.
 */
module Evolution {
  import opened Sorting
  import opened Records
  import opened Randomness
  import opened Operators

  /** The constants the search runs with. */
  datatype Params = Params(populationSize: nat, generations: nat, mutationProb: real)

  const Defaults := Params(200, 1000, 0.1)

  /** Every individual of the population conforms to the route order and the drivers. */
  predicate Sound(population: seq<Individual>, order: seq<Route>, drivers: seq<Driver>) {
    forall k :: 0 <= k < |population| ==> Conforms(population[k], order, drivers)
  }

  /** Sorting by this key ascending is sorting by grade descending. */
  function RankKey(grade: Individual -> int): Individual -> int {
    ind => -grade(ind)
  }

  /** `population.sort(key=grade, reverse=True)`: a stable sort, highest grade first. */
  function Ranked(grade: Individual -> int, population: seq<Individual>): seq<Individual> {
    StableSort(population, RankKey(grade))
  }

  /** Ranking is a permutation ordered by score, best first, with ties kept in their old order. */
  lemma RankedOrder(grade: Individual -> int, population: seq<Individual>)
    ensures var r := Ranked(grade, population);
      && |r| == |population| && multiset(r) == multiset(population)
      && (forall i, j :: 0 <= i < j < |r| ==> grade(r[i]) >= grade(r[j]))
      && (forall v :: WithKey(r, RankKey(grade), v) == WithKey(population, RankKey(grade), v))
  {
    var r := Ranked(grade, population);
    forall i, j | 0 <= i < j < |r|
      ensures grade(r[i]) >= grade(r[j])
    {
      assert RankKey(grade)(r[i]) <= RankKey(grade)(r[j]);
    }
    forall v {
      SortIsStable(population, RankKey(grade), v);
    }
  }

  /** Every ranked individual is an individual of the population. */
  lemma RankedFrom(grade: Individual -> int, population: seq<Individual>, i: nat)
    requires i < |Ranked(grade, population)|
    ensures exists k :: 0 <= k < |population| && population[k] == Ranked(grade, population)[i]
  {
    var r := Ranked(grade, population);
    assert r[i] in multiset(r);
    assert r[i] in multiset(population);
  }

  /** Ranking keeps every individual conforming. */
  lemma RankedSound(grade: Individual -> int, population: seq<Individual>, order: seq<Route>, drivers: seq<Driver>)
    requires Sound(population, order, drivers)
    ensures Sound(Ranked(grade, population), order, drivers)
  {
    var r := Ranked(grade, population);
    forall i | 0 <= i < |r|
      ensures Conforms(r[i], order, drivers)
    {
      RankedFrom(grade, population, i);
    }
  }

  /**
   * The loop of `evolve` that appends children until the generation is
   * full: each child crosses two parents drawn from `parents` and is then
   * mutated, so it conforms like its parents do.
   */
  method Breed(parents: seq<Individual>, order: seq<Route>, drivers: seq<Driver>, prob: real, count: nat, rng: RandomSource)
    returns (kids: seq<Individual>)
    requires |parents| > 0 && Sound(parents, order, drivers)
    modifies rng
    ensures |kids| == count && Sound(kids, order, drivers)
  {
    kids := [];
    while |kids| < count
      invariant |kids| <= count && Sound(kids, order, drivers)
    {
      var p1 := rng.Choice(|parents|);
      var p2 := rng.Choice(|parents|);
      ghost var crossedAt := rng.position;
      var child := Crossover(parents[p1], parents[p2], |order|, rng);
      CrossShape(parents[p1], parents[p2], order, drivers, rng.stream, crossedAt);
      ghost var crossed := child[..];
      ghost var mutatedAt := rng.position;
      Mutate(child, prob, rng);
      MutationShape(crossed, prob, rng.stream, mutatedAt, order, drivers);
      kids := kids + [child[..]];
    }
  }

  /** `evolve` */
  method Evolve(grade: Individual -> int, population: seq<Individual>, order: seq<Route>, drivers: seq<Driver>, params: Params, rng: RandomSource)
    returns (nextGen: seq<Individual>)
    requires params.populationSize >= 4 && |population| == params.populationSize
    requires Sound(population, order, drivers)
    modifies rng
    ensures |nextGen| == params.populationSize && Sound(nextGen, order, drivers)
    ensures nextGen[..params.populationSize / 5] == Ranked(grade, population)[..params.populationSize / 5]
    ensures params.populationSize >= 5 ==> BestScore(grade, nextGen) >= BestScore(grade, population)
  {
    var size := params.populationSize;
    var ranked := Ranked(grade, population);
    RankedSound(grade, population, order, drivers);
    nextGen := ranked[..size / 5];
    var kids := Breed(ranked[..size / 4], order, drivers, params.mutationProb, size - size / 5, rng);
    SoundSplice(ranked, size / 5, kids, order, drivers);
    nextGen := nextGen + kids;
    if size >= 5 {
      EliteFirst(grade, population, nextGen);
    }
  }

  /** Taking a prefix and appending keeps a population conforming. */
  lemma SoundSplice(population: seq<Individual>, k: nat, kids: seq<Individual>, order: seq<Route>, drivers: seq<Driver>)
    requires k <= |population|
    requires Sound(population, order, drivers) && Sound(kids, order, drivers)
    ensures Sound(population[..k], order, drivers) && Sound(population[..k] + kids, order, drivers)
  {
    var spliced := population[..k] + kids;
    forall i | 0 <= i < |spliced|
      ensures Conforms(spliced[i], order, drivers)
    {
      if i < k {
        assert spliced[i] == population[i];
      } else {
        assert spliced[i] == kids[i - k];
      }
    }
  }

  /**
   * `max(population, key=grade)`: the first individual with the highest
   * grade.
   */
  function BestIndex(grade: Individual -> int, population: seq<Individual>): (b: nat)
    requires |population| > 0
    ensures b < |population|
    ensures forall k :: 0 <= k < |population| ==> grade(population[k]) <= grade(population[b])
    ensures forall k :: 0 <= k < b ==> grade(population[k]) < grade(population[b])
  {
    if |population| == 1 then 0
    else
      var last := |population| - 1;
      var b := BestIndex(grade, population[..last]);
      if grade(population[last]) > grade(population[b]) then last else b
  }

  /** The highest grade in the population. */
  function BestScore(grade: Individual -> int, population: seq<Individual>): int
    requires |population| > 0
  {
    grade(population[BestIndex(grade, population)])
  }

  /** Every individual of the population has a place in the ranking. */
  lemma InRanking(grade: Individual -> int, population: seq<Individual>, k: nat)
    requires k < |population|
    ensures exists j :: 0 <= j < |Ranked(grade, population)| && Ranked(grade, population)[j] == population[k]
  {
    var r := Ranked(grade, population);
    assert population[k] in multiset(population);
    assert population[k] in multiset(r);
  }

  /**
   * A generation that opens with the first ranked individual has a best
   * grade no lower than the population it was ranked from.
   */
  lemma EliteFirst(grade: Individual -> int, population: seq<Individual>, next: seq<Individual>)
    requires |population| > 0 && |next| > 0
    requires next[0] == Ranked(grade, population)[0]
    ensures forall k :: 0 <= k < |population| ==> grade(population[k]) <= grade(next[0])
    ensures BestScore(grade, next) >= BestScore(grade, population)
  {
    var ranked := Ranked(grade, population);
    RankedOrder(grade, population);
    forall k | 0 <= k < |population|
      ensures grade(population[k]) <= grade(next[0])
    {
      InRanking(grade, population, k);
      var j :| 0 <= j < |ranked| && ranked[j] == population[k];
      if j > 0 {
        assert grade(ranked[0]) >= grade(ranked[j]);
      }
    }
  }
}
