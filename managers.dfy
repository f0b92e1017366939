/**
 * The category managers (`ParkingManager`, `TwoWheelerManager`,
 * `FourWheelerManager`) and the factory that builds them. The two Java
 * managers differ only in the category they accept, so one class carries
 * that category as a field.
 */
module Managers {
  import opened Options
  import opened Spots
  import opened Strategies

  /** The position of the first occurrence of `x` in `s` (`List.indexOf`). */
  function IndexOf<T(==)>(s: seq<T>, x: T): (k: nat)
    requires x in s
    ensures k < |s| && s[k] == x
    ensures forall j :: 0 <= j < k ==> s[j] != x
  {
    if s[0] == x then 0 else 1 + IndexOf(s[1..], x)
  }

  /**
   * `List.remove(Object)`: drops the first occurrence of `x`; the list is
   * unchanged when `x` does not occur. For spots, `==` is reference identity,
   * as `ParkingLot` does not redefine `equals`.
   */
  function RemoveFirst<T(==)>(s: seq<T>, x: T): (r: seq<T>)
    ensures x !in s ==> r == s
    ensures |r| == if x in s then |s| - 1 else |s|
  {
    if s == [] then []
    else if s[0] == x then s[1..]
    else [s[0]] + RemoveFirst(s[1..], x)
  }

  /** Exactly one occurrence of `x` goes, if there is one; nothing else is lost or gained. */
  lemma {:induction false} RemoveFirstMultiset<T>(s: seq<T>, x: T)
    ensures multiset(RemoveFirst(s, x)) == multiset(s) - multiset{x}
  {
    if s != [] {
      assert s == [s[0]] + s[1..];
      if s[0] != x {
        RemoveFirstMultiset(s[1..], x);
      }
    }
  }

  /** The rest of the list keeps its order: removal closes the gap left at the first occurrence. */
  lemma {:induction false} RemoveFirstAt<T>(s: seq<T>, x: T)
    requires x in s
    ensures RemoveFirst(s, x) == s[..IndexOf(s, x)] + s[IndexOf(s, x) + 1..]
  {
    if s[0] != x {
      var t := s[1..];
      RemoveFirstAt(t, x);
      var k := IndexOf(t, x);
      var r := RemoveFirst(t, x);
      assert IndexOf(s, x) == k + 1;
      assert RemoveFirst(s, x) == [s[0]] + r;
      assert s[..k + 1] == [s[0]] + t[..k];
      assert s[k + 2..] == t[k + 1..];
      assert [s[0]] + (t[..k] + t[k + 1..]) == ([s[0]] + t[..k]) + t[k + 1..];
    }
  }

  /** The spot is occupied by a vehicle with the given number. */
  predicate HoldsNumber(s: Spot, number: int)
    reads s
  {
    !s.IsAvailable() && s.vehicle.Some? && s.vehicle.value.number == number
  }

  /** The position of the first spot occupied by a vehicle with the given number, if any. */
  function FirstHolding(spots: seq<Spot>, number: int): (r: Option<nat>)
    reads spots
    ensures r.Some? ==>
      r.value < |spots| && HoldsNumber(spots[r.value], number) &&
      forall j :: 0 <= j < r.value ==> !HoldsNumber(spots[j], number)
    ensures r.None? <==> forall j :: 0 <= j < |spots| ==> !HoldsNumber(spots[j], number)
  {
    if spots == [] then None
    else if HoldsNumber(spots[0], number) then Some(0)
    else
      match FirstHolding(spots[1..], number)
      case None => None
      case Some(k) => Some(k + 1)
  }

  class Manager {
    const category: Category
    const strategy: Strategy
    var spots: seq<Spot>

    /** Every managed spot is of the manager's category and is itself consistent. */
    ghost predicate Valid()
      reads this, spots
    {
      forall i :: 0 <= i < |spots| ==> spots[i].category == category && spots[i].Valid()
    }

    /** A manager starts with no spots. */
    constructor (category: Category, strategy: Strategy)
      ensures this.category == category && this.strategy == strategy
      ensures spots == [] && Valid()
    {
      this.category := category;
      this.strategy := strategy;
      spots := [];
    }

    /** `find`: delegates to the strategy over all managed spots. */
    method Find(v: Vehicle) returns (r: Option<Spot>)
      ensures Selects(strategy, spots, r)
    {
      r := Strategies.Find(strategy, spots, v);
    }

    /** `addSpot`: appends the spot when it is of the manager's category and ignores it otherwise. */
    method AddSpot(lot: Spot)
      requires Valid() && lot.Valid()
      modifies this
      ensures Valid()
      ensures spots == if lot.category == category then old(spots) + [lot] else old(spots)
    {
      if lot.category == category {
        spots := spots + [lot];
      }
    }

    /** `removeSpot`: drops the first occurrence of this very spot, if there is one. */
    method RemoveSpot(lot: Spot)
      requires Valid()
      modifies this
      ensures Valid()
      ensures spots == RemoveFirst(old(spots), lot)
    {
      spots := RemoveFirst(spots, lot);
      RemoveFirstMultiset(old(spots), lot);
      forall i | 0 <= i < |spots|
        ensures spots[i].category == category && spots[i].Valid()
      {
        assert spots[i] in multiset(spots);
        var j :| 0 <= j < |old(spots)| && old(spots)[j] == spots[i];
      }
    }

    /**
     * The outcome of admitting `v`: the list is the same; the strategy, asked in
     * the old state, chose `chosen`; `ok` says whether it chose a spot; that
     * spot now holds `v` and every other spot is as it was.
     */
    twostate predicate Admitted(v: Vehicle, ok: bool, new chosen: Option<Spot>)
      reads this, spots
    {
      spots == old(spots) && ok == chosen.Some? &&
      (chosen.Some? ==> chosen.value in old(spots)) &&
      old(Selects(strategy, spots, chosen)) &&
      forall s | s in spots ::
        if chosen == Some(s) then !s.IsAvailable() && s.vehicle == Some(v) else unchanged(s)
    }

    /**
     * `addVehicle`: asks the strategy for a spot and occupies it with `v`.
     * Succeeds exactly when some spot was available; on failure nothing changes.
     */
    method AddVehicle(v: Vehicle) returns (ok: bool, ghost chosen: Option<Spot>)
      requires Valid()
      modifies spots
      ensures Valid() && Admitted(v, ok, chosen)
      ensures ok <==> !old(NoneFree(spots))
    {
      var spot := Find(v);
      SelectedSpotIsFree(strategy, spots, spot);
      chosen := spot;
      ok := spot.Some?;
      if ok {
        spot.value.Add(v);
      }
    }

    /**
     * The outcome of releasing `number`: the list is the same; the first spot
     * that held that number in the old state, and every occurrence of that
     * same spot, is now empty; every other spot is as it was.
     */
    twostate predicate Released(number: int)
      reads this, spots
    {
      spots == old(spots) &&
      var k := old(FirstHolding(spots, number));
      forall s | s in spots ::
        if k.Some? && s == old(spots)[k.value] then s.IsAvailable() && s.vehicle == None else unchanged(s)
    }

    /**
     * `removeVehicle`: vacates the first occupied spot whose occupant has the
     * number of `v`; does nothing when there is none.
     */
    method RemoveVehicle(v: Vehicle)
      requires Valid()
      modifies spots
      ensures Valid() && Released(v.number)
    {
      for i := 0 to |spots|
        invariant Valid()
        invariant forall s | s in spots :: unchanged(s)
        invariant forall j :: 0 <= j < i ==> !old(HoldsNumber(spots[j], v.number))
      {
        var lot := spots[i];
        if !lot.IsAvailable() && lot.vehicle.value.number == v.number {
          assert old(HoldsNumber(spots[i], v.number));
          lot.Remove();
          return;
        }
      }
    }
  }

  /** `ParkingManagerFactory.getManager`: a new, empty manager for the category. */
  method GetManager(category: Category, strategy: Strategy) returns (m: Manager)
    ensures fresh(m) && m.Valid()
    ensures m.category == category && m.strategy == strategy && m.spots == []
  {
    m := new Manager(category, strategy);
  }
}
