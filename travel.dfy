/**
 * The travel-time oracle: a dict from a raw stored pair of location ids to
 * minutes, looked up by the sorted pair with a fallback of 30 minutes, and
 * the normalization the time-matrix endpoints apply before storing a row.
 */
module TravelTimes {
  import opened Wrappers

  /** A stored time-matrix row. */
  datatype Edge = Edge(fromId: int, toId: int, travel: int)

  type Table = map<(int, int), int>

  /** Minutes assumed for a pair of distinct locations with no stored row. */
  const Fallback := 30

  datatype MatrixError = SameLocation

  function Key(e: Edge): (int, int) {
    (e.fromId, e.toId)
  }

  /** The pair in ascending order, as `sorted([a, b])` gives it. */
  function Ordered(a: int, b: int): (p: (int, int))
    ensures p.0 <= p.1
    ensures (p.0 == a && p.1 == b) || (p.0 == b && p.1 == a)
  {
    if a <= b then (a, b) else (b, a)
  }

  /** The dict filled row by row, keyed by the raw stored pair; a later row overwrites an earlier one. */
  function TableOf(edges: seq<Edge>): Table {
    if edges == [] then map[]
    else TableOf(edges[..|edges| - 1])[Key(edges[|edges| - 1]) := edges[|edges| - 1].travel]
  }

  method BuildTable(edges: seq<Edge>) returns (table: Table)
    ensures table == TableOf(edges)
  {
    table := map[];
    for i := 0 to |edges|
      invariant table == TableOf(edges[..i])
    {
      assert edges[..i + 1][..i] == edges[..i];
      table := table[Key(edges[i]) := edges[i].travel];
    }
    assert edges[..|edges|] == edges;
  }

  /** The last row stored under a pair is the one the dict holds. */
  lemma {:induction false} LastRowWins(edges: seq<Edge>, i: nat)
    requires i < |edges|
    requires forall j :: i < j < |edges| ==> Key(edges[j]) != Key(edges[i])
    ensures Key(edges[i]) in TableOf(edges) && TableOf(edges)[Key(edges[i])] == edges[i].travel
  {
    if i < |edges| - 1 {
      LastRowWins(edges[..|edges| - 1], i);
    }
  }

  /** A pair that no row stores is absent from the dict. */
  lemma {:induction false} UnstoredPairAbsent(edges: seq<Edge>, k: (int, int))
    requires forall j :: 0 <= j < |edges| ==> Key(edges[j]) != k
    ensures k !in TableOf(edges)
  {
    if edges != [] {
      UnstoredPairAbsent(edges[..|edges| - 1], k);
    }
  }

  /** Travel minutes between two locations. */
  function TravelTime(table: Table, a: int, b: int): int {
    if a == b then 0
    else
      var p := Ordered(a, b);
      if p in table then table[p] else Fallback
  }

  /** Zero for the same location, symmetric, and the fallback when the sorted pair is missing. */
  lemma TravelTimeOracle(table: Table, a: int, b: int)
    ensures TravelTime(table, a, a) == 0
    ensures TravelTime(table, a, b) == TravelTime(table, b, a)
    ensures a != b && Ordered(a, b) !in table ==> TravelTime(table, a, b) == Fallback
    ensures a != b && Ordered(a, b) in table ==> TravelTime(table, a, b) == table[Ordered(a, b)]
  {
  }

  /**
   * The row the create and update endpoints store for a request: the same
   * location twice is refused, otherwise the pair is kept lower id first.
   */
  function StoredRow(fromId: int, toId: int, travel: int): (r: Result<Edge, MatrixError>)
    ensures r.Failure? <==> fromId == toId
    ensures r.Success? ==> r.value.fromId < r.value.toId && r.value.travel == travel
    ensures r.Success? ==> {r.value.fromId, r.value.toId} == {fromId, toId}
  {
    if fromId == toId then Failure(SameLocation)
    else
      var p := Ordered(fromId, toId);
      Success(Edge(p.0, p.1, travel))
  }

  /** A normalized row that no later row overrides is found in both directions. */
  lemma NormalizedRowFound(edges: seq<Edge>, i: nat, fromId: int, toId: int, travel: int)
    requires i < |edges| && StoredRow(fromId, toId, travel) == Success(edges[i])
    requires forall j :: i < j < |edges| ==> Key(edges[j]) != Key(edges[i])
    ensures TravelTime(TableOf(edges), fromId, toId) == travel
    ensures TravelTime(TableOf(edges), toId, fromId) == travel
  {
    LastRowWins(edges, i);
  }

  /** A row stored higher id first is never consulted: the lookup falls back. */
  lemma UnnormalizedRowMissed(edges: seq<Edge>, i: nat)
    requires i < |edges| && edges[i].fromId > edges[i].toId
    requires forall j :: 0 <= j < |edges| ==> Key(edges[j]) != (edges[i].toId, edges[i].fromId)
    ensures TravelTime(TableOf(edges), edges[i].fromId, edges[i].toId) == Fallback
  {
    UnstoredPairAbsent(edges, (edges[i].toId, edges[i].fromId));
  }
}
