/**
 * The two spot-selection strategies (`ParkingStrategy` and its implementations).
 * Each picks a free spot from a list without changing any spot.
 */
module Strategies {
  import opened Options
  import opened Spots

  datatype Strategy = FirstAvailableStrategy | NearestToGateStrategy

  /** No spot of the list is available. */
  predicate NoneFree(spots: seq<Spot>)
    reads spots
  {
    forall j :: 0 <= j < |spots| ==> !spots[j].IsAvailable()
  }

  /** Position `k` holds the earliest available spot of the list. */
  predicate IsFirstFree(spots: seq<Spot>, k: int)
    reads spots
  {
    0 <= k < |spots| && spots[k].IsAvailable() &&
    forall j :: 0 <= j < k ==> !spots[j].IsAvailable()
  }

  /** `s` is an available spot of the list whose id is no larger than that of any available spot. */
  predicate IsNearestFree(spots: seq<Spot>, s: Spot)
    reads spots
  {
    s in spots && s.IsAvailable() &&
    forall j :: 0 <= j < |spots| && spots[j].IsAvailable() ==> s.id <= spots[j].id
  }

  /** What first-available selection promises: the earliest available spot, or none iff none is available. */
  ghost predicate FirstAvailableSpec(spots: seq<Spot>, r: Option<Spot>)
    reads spots
  {
    (r.None? <==> NoneFree(spots)) &&
    (r.Some? ==> exists k :: IsFirstFree(spots, k) && spots[k] == r.value)
  }

  /**
   * What nearest-to-gate selection promises: an available spot of least id, or
   * none iff none is available. Which of several spots with that id is left open.
   */
  ghost predicate NearestToGateSpec(spots: seq<Spot>, r: Option<Spot>)
    reads spots
  {
    (r.None? <==> NoneFree(spots)) &&
    (r.Some? ==> IsNearestFree(spots, r.value))
  }

  /** The promise of the given strategy. */
  ghost predicate Selects(strategy: Strategy, spots: seq<Spot>, r: Option<Spot>)
    reads spots
  {
    match strategy
    case FirstAvailableStrategy => FirstAvailableSpec(spots, r)
    case NearestToGateStrategy => NearestToGateSpec(spots, r)
  }

  /** `FirstAvailableStrategy.find`: scans the list in order and stops at the first available spot. */
  method FirstAvailable(spots: seq<Spot>) returns (r: Option<Spot>)
    ensures FirstAvailableSpec(spots, r)
  {
    for i := 0 to |spots|
      invariant forall j :: 0 <= j < i ==> !spots[j].IsAvailable()
    {
      if spots[i].IsAvailable() {
        assert IsFirstFree(spots, i);
        return Some(spots[i]);
      }
    }
    return None;
  }

  /**
   * `NearestToGateStrategy.find`: the minimum by id of the available spots.
   * Written as the left-to-right reduction the stream performs; on equal ids
   * the earlier spot is kept.
   */
  function NearestToGate(spots: seq<Spot>): (r: Option<Spot>)
    reads spots
    ensures NearestToGateSpec(spots, r)
    decreases |spots|
  {
    if spots == [] then None
    else
      var init := spots[..|spots| - 1];
      var last := spots[|spots| - 1];
      var best := NearestToGate(init);
      assert forall j :: 0 <= j < |init| ==> init[j] == spots[j];
      if !last.IsAvailable() then best
      else if best.Some? && best.value.id <= last.id then best
      else Some(last)
  }

  /** `ParkingStrategy.find` dispatched on the strategy; the vehicle is not consulted. */
  method Find(strategy: Strategy, spots: seq<Spot>, v: Vehicle) returns (r: Option<Spot>)
    ensures Selects(strategy, spots, r)
  {
    match strategy
    case FirstAvailableStrategy =>
      r := FirstAvailable(spots);
    case NearestToGateStrategy =>
      r := NearestToGate(spots);
  }

  /** Whatever a strategy selects is an available spot of the list. */
  lemma SelectedSpotIsFree(strategy: Strategy, spots: seq<Spot>, r: Option<Spot>)
    requires Selects(strategy, spots, r)
    ensures r.None? <==> NoneFree(spots)
    ensures r.Some? ==> r.value in spots && r.value.IsAvailable()
  {
  }

  /** Ids strictly increase along the list: the list is ordered from the gate outwards. */
  predicate IdsAscending(spots: seq<Spot>)
    reads spots
  {
    forall i, j :: 0 <= i < j < |spots| ==> spots[i].id < spots[j].id
  }

  /** On a list ordered by id from the gate, both strategies pick the same spot. */
  lemma StrategiesAgreeWhenOrdered(spots: seq<Spot>, k: int)
    requires IdsAscending(spots)
    requires IsFirstFree(spots, k)
    ensures NearestToGate(spots) == Some(spots[k])
  {
  }
}
