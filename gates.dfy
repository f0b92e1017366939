/** The entry and exit gates: thin front ends that forward to a category manager. */
module Gates {
  import opened Options
  import opened Spots
  import opened Strategies
  import opened Managers

  class EntryGate {
    const manager: Manager

    constructor (manager: Manager)
      ensures this.manager == manager
    {
      this.manager := manager;
    }

    /** `allowEntry`: the manager's `addVehicle`, its answer returned unchanged. */
    method AllowEntry(v: Vehicle) returns (ok: bool, ghost chosen: Option<Spot>)
      requires manager.Valid()
      modifies manager.spots
      ensures manager.Valid() && manager.Admitted(v, ok, chosen)
      ensures ok <==> !old(NoneFree(manager.spots))
    {
      ok, chosen := manager.AddVehicle(v);
    }
  }

  class ExitGate {
    const manager: Manager

    constructor (manager: Manager)
      ensures this.manager == manager
    {
      this.manager := manager;
    }

    /** `allowExit`: the manager's `removeVehicle`; reports nothing. */
    method AllowExit(v: Vehicle)
      requires manager.Valid()
      modifies manager.spots
      ensures manager.Valid() && manager.Released(v.number)
    {
      manager.RemoveVehicle(v);
    }
  }

  /**
   * A vehicle that has just left frees a spot, so the next admission through
   * the same manager succeeds.
   */
  method ExitThenEnter(exit: ExitGate, entry: EntryGate, v: Vehicle, w: Vehicle)
      returns (ok: bool)
    requires exit.manager == entry.manager && exit.manager.Valid()
    requires FirstHolding(exit.manager.spots, v.number).Some?
    modifies exit.manager.spots
    ensures ok
  {
    ghost var k := FirstHolding(exit.manager.spots, v.number).value;
    exit.AllowExit(v);
    assert exit.manager.spots[k].IsAvailable();
    ghost var chosen;
    ok, chosen := entry.AllowEntry(w);
  }

  /** The demonstration's gates, manager and spots, in a state with the given occupants. */
  ghost predicate Demo(entry: EntryGate, exit: ExitGate, s1: Spot, s2: Spot, o1: Option<Vehicle>, o2: Option<Vehicle>)
    reads entry.manager, s1, s2
  {
    entry.manager == exit.manager && entry.manager.spots == [s1, s2] &&
    entry.manager.Valid() && entry.manager.category == Two &&
    entry.manager.strategy == NearestToGateStrategy &&
    s1.id == 1 && s2.id == 2 && s1.category == Two && s2.category == Two &&
    s1.vehicle == o1 && s2.vehicle == o2
  }

  /**
   * The setting of the demonstration: a two-wheeler manager with
   * nearest-to-gate selection, two empty spots with ids 1 and 2, and a gate
   * on each side.
   */
  method SetUp() returns (entry: EntryGate, exit: ExitGate, s1: Spot, s2: Spot)
    ensures fresh(entry.manager) && fresh(s1) && fresh(s2)
    ensures Demo(entry, exit, s1, s2, None, None)
  {
    var m := GetManager(Two, NearestToGateStrategy);
    s1 := new Spot(1, Two);
    s2 := new Spot(2, Two);
    m.AddSpot(s1);
    m.AddSpot(s2);
    entry := new EntryGate(m);
    exit := new ExitGate(m);
  }

  /** Vehicle 101 arrives at the empty lot and takes spot 1, the one nearest the gate. */
  method FirstArrival(entry: EntryGate, exit: ExitGate, s1: Spot, s2: Spot)
    requires Demo(entry, exit, s1, s2, None, None)
    modifies s1, s2
    ensures Demo(entry, exit, s1, s2, Some(Vehicle(101, Two)), None)
  {
    var ok, chosen := entry.AllowEntry(Vehicle(101, Two));
    assert ok && old(IsNearestFree([s1, s2], chosen.value));
    assert chosen.value == s1 by {
      assert old([s1, s2][0].IsAvailable());
      assert chosen.value.id <= s1.id;
    }
  }

  /** Vehicle 102 arrives while spot 1 is taken and gets spot 2. */
  method SecondArrival(entry: EntryGate, exit: ExitGate, s1: Spot, s2: Spot)
    requires Demo(entry, exit, s1, s2, Some(Vehicle(101, Two)), None)
    modifies s1, s2
    ensures Demo(entry, exit, s1, s2, Some(Vehicle(101, Two)), Some(Vehicle(102, Two)))
  {
    var ok, chosen := entry.AllowEntry(Vehicle(102, Two));
    assert ok && old(IsNearestFree([s1, s2], chosen.value));
    assert chosen.value == s2 by {
      assert old(![s1, s2][0].IsAvailable());
    }
  }

  /** Vehicle 103 arrives at the full lot: it is turned away and nothing changes. */
  method ThirdArrival(entry: EntryGate, exit: ExitGate, s1: Spot, s2: Spot) returns (ok: bool)
    requires Demo(entry, exit, s1, s2, Some(Vehicle(101, Two)), Some(Vehicle(102, Two)))
    modifies s1, s2
    ensures !ok && Demo(entry, exit, s1, s2, Some(Vehicle(101, Two)), Some(Vehicle(102, Two)))
  {
    ghost var chosen;
    ok, chosen := entry.AllowEntry(Vehicle(103, Two));
  }

  /** Vehicles 101 and 102 take spots 1 and 2 in that order; 103 is then turned away. */
  method FillScenario() {
    var entry, exit, s1, s2 := SetUp();
    FirstArrival(entry, exit, s1, s2);
    SecondArrival(entry, exit, s1, s2);
    var ok := ThirdArrival(entry, exit, s1, s2);
    assert !ok;
  }

  /** Vehicle 101 leaves from spot 1, which becomes free; spot 2 is untouched. */
  method Departure(entry: EntryGate, exit: ExitGate, s1: Spot, s2: Spot, o2: Option<Vehicle>)
    requires Demo(entry, exit, s1, s2, Some(Vehicle(101, Two)), o2)
    modifies s1, s2
    ensures Demo(entry, exit, s1, s2, None, o2)
  {
    exit.AllowExit(Vehicle(101, Two));
    assert old(FirstHolding([s1, s2], 101)) == Some(0) by {
      assert old(HoldsNumber([s1, s2][0], 101));
    }
  }

  /** A vehicle that never parked leaves: no error and no change. */
  method UnknownDeparture(entry: EntryGate, exit: ExitGate, s1: Spot, s2: Spot, o1: Option<Vehicle>, o2: Option<Vehicle>)
    requires Demo(entry, exit, s1, s2, o1, o2)
    requires o1.Some? ==> o1.value.number != 999
    requires o2.Some? ==> o2.value.number != 999
    modifies s1, s2
    ensures Demo(entry, exit, s1, s2, o1, o2)
  {
    exit.AllowExit(Vehicle(999, Two));
    assert old(FirstHolding([s1, s2], 999)).None?;
  }

  /**
   * Vehicle 101 parks at spot 1 and leaves, which frees spot 1; an unknown
   * vehicle leaving changes nothing; 101 can then come back to spot 1.
   */
  method LeaveScenario() {
    var entry, exit, s1, s2 := SetUp();
    FirstArrival(entry, exit, s1, s2);
    Departure(entry, exit, s1, s2, None);
    UnknownDeparture(entry, exit, s1, s2, None, None);
    FirstArrival(entry, exit, s1, s2);
  }
}
