/**
 * A single parking space (`ParkingLot` and its two subclasses in main.java)
 * and the vehicles that occupy spaces.
 */
module Spots {
  import opened Options

  /** The two vehicle and spot categories (Java's `Type` enum and the two `ParkingLot` subclasses). */
  datatype Category = Two | Four

  /** A vehicle never changes after construction, so it is a value. */
  datatype Vehicle = Vehicle(number: int, category: Category)

  /** A parking space. Its id and category are fixed; its occupancy changes in place. */
  class Spot {
    const id: int
    const category: Category
    var isEmpty: bool
    var vehicle: Option<Vehicle>

    /** The flag and the occupant agree: a spot is empty exactly when nobody occupies it. */
    ghost predicate Valid()
      reads this
    {
      isEmpty <==> vehicle.None?
    }

    /** A fresh spot is empty (`new TwoWheelerParking(id)` / `new FourWheelerParking(id)`). */
    constructor (id: int, category: Category)
      ensures this.id == id && this.category == category
      ensures Valid() && isEmpty && vehicle == None
    {
      this.id := id;
      this.category := category;
      isEmpty := true;
      vehicle := None;
    }

    /**
     * The fee of the spot. It is fixed by the category alone: the function
     * reads no mutable field, so occupancy cannot change it.
     */
    function Price(): (p: int)
      ensures p == 50 <==> category == Two
      ensures p == 100 <==> category == Four
    {
      match category
      case Two => 50
      case Four => 100
    }

    /** Whether the spot can take a vehicle; for a consistent spot, exactly when it has no occupant. */
    function IsAvailable(): (r: bool)
      reads this
      ensures Valid() ==> (r <==> vehicle.None?)
    {
      isEmpty
    }

    /** Occupies the spot with `v`; an existing occupant is silently overwritten. */
    method Add(v: Vehicle)
      modifies this
      ensures Valid() && !IsAvailable() && vehicle == Some(v)
    {
      vehicle := Some(v);
      isEmpty := false;
    }

    /** Vacates the spot; harmless on a spot that is already empty. */
    method Remove()
      modifies this
      ensures Valid() && IsAvailable() && vehicle == None
    {
      vehicle := None;
      isEmpty := true;
    }
  }
}
