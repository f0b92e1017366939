# Parking-lot allocator in Dafny

This project models the allocation bookkeeping of a small in-memory
parking-lot system, written in Java as the single file `main.java`. A
*spot* (`ParkingLot`) is a parking space with an id, a fixed category
(two-wheeler or four-wheeler) and a price set by that category. A spot is
either free or occupied by one vehicle. A *strategy* picks a free spot from
a list. There are two: first available, and nearest to the gate (lowest id).
A *category manager* owns the list of spots of one category. It assigns
arriving vehicles through its strategy and frees the spot of a departing
vehicle. Entry and exit *gates* forward to a manager, and a factory builds
managers.

Layout, one module per file:

- `options.dfy`, module `Options`: `Option`, standing for a Java reference that may be null.
- `spots.dfy`, module `Spots`: `Category`, `Vehicle` (a value, as the Java
  object never changes), and the class `Spot`. A `Spot` has constant `id`
  and `category` and mutable `isEmpty` and `vehicle`. `Spot.Valid()` says the
  flag and the occupant agree.
- `strategies.dfy`, module `Strategies`: the strategy datatype and the
  specifications each strategy must meet. First-available is a method with
  a loop, as in the source. Nearest-to-gate is a recursive function, the
  left-to-right reduction the Java stream performs. A dispatcher `Find`
  chooses between them.
- `managers.dfy`, module `Managers`: one `Manager` class whose constant
  `category` replaces the two textually identical Java manager classes.
  Its spot list is a `seq<Spot>` field. Adding and removing spots reassign
  that field. Admitting and releasing vehicles change spot objects in place.
  `RemoveFirst` and `IndexOf` model `List.remove(Object)` and
  `List.indexOf`. `Spot` is a class, so `==` on spots is reference identity,
  just as `ParkingLot` inherits identity `equals`. The factory is `GetManager`.
- `gates.dfy`, module `Gates`: the two gates, and client methods that
  replay the demonstration in `main` and the scenarios a manager must meet.
  Vehicles 101 and 102 get spots 1 and 2 and 103 is turned away. 101 leaves,
  an unknown vehicle's exit changes nothing, and 101 can come back.

The state-changing operations are stated as two-state predicates on the
manager. `Admitted` is the outcome of `addVehicle`: the spot the strategy
picked in the old state now holds the vehicle, and every other spot is
unchanged. `Released` is the outcome of `removeVehicle`: the first spot
holding the vehicle's number is empty, and every other spot is unchanged.
The gates reuse these predicates. A list may hold the same spot object
twice, because Java does not prevent it. So "every other spot" means
every other object, and each occurrence of the chosen object changes
together.

## Model

| member | source | states |
|---|---|---|
| `Spots.Spot.constructor` | main.java:10-13 | a new spot has the given id and category, is empty and has no occupant |
| `Spots.Spot.Price` | main.java:36-49 | the fee is 50 exactly for a two-wheeler spot and 100 exactly for a four-wheeler spot; it reads no mutable field, so occupancy never changes it |
| `Spots.Spot.IsAvailable` | main.java:27-29 | for a consistent spot, available exactly when it has no occupant |
| `Spots.Spot.Add` | main.java:17-20 | the spot becomes occupied by `v`, with no precondition; the flag/occupant invariant holds afterwards |
| `Spots.Spot.Remove` | main.java:22-25 | the spot becomes empty with no occupant, also when it already was; the invariant holds afterwards |
| `Strategies.FirstAvailable` | main.java:72-79 | returns the available spot at the lowest position, or none exactly when no spot is available; changes nothing |
| `Strategies.NearestToGate` | main.java:82-89 | returns an available spot of the list whose id is at most that of every available spot, or none exactly when no spot is available; reads only, so changes nothing |
| `Strategies.Find` | main.java:67-69 | the result meets the promise of the chosen strategy, whatever the vehicle |
| `Strategies.SelectedSpotIsFree` | main.java:72-89 | whatever either strategy selects is an available member of the list, and it selects nothing exactly when no spot is available |
| `Strategies.StrategiesAgreeWhenOrdered` | main.java:81-89 | when ids increase along the list (lowest id closest to the gate), nearest-to-gate picks the same spot as first-available |
| `Managers.IndexOf` | main.java:127-129 | the first position where the element occurs |
| `Managers.RemoveFirst` | main.java:127-129 | the list is unchanged when the spot is absent; otherwise it is one shorter |
| `Managers.RemoveFirstAt` | main.java:127-129 | removal deletes exactly the first occurrence and keeps the order of everything else |
| `Managers.RemoveFirstMultiset` | main.java:127-129 | removal takes away one occurrence of the spot, if any, and no other element |
| `Managers.FirstHolding` | main.java:142-149 | the position of the first occupied spot whose occupant has the given number, or none exactly when no spot holds that number |
| `Managers.Manager.constructor` | main.java:93-98 | a new manager has the given category and strategy and no spots |
| `Managers.Manager.Find` | main.java:116-119 | the spot chosen meets the manager's strategy's promise over all its spots |
| `Managers.Manager.AddSpot` | main.java:121-124 | the spot is appended when its category is the manager's, and the list is left as it was otherwise; every managed spot stays of the manager's category |
| `Managers.Manager.RemoveSpot` | main.java:126-129 | the list loses the first occurrence of that very spot object, if any, in the order otherwise kept |
| `Managers.Manager.AddVehicle` | main.java:131-139 | succeeds exactly when some spot was available; on success the spot the strategy picked holds `v` and no other spot changed; on failure no spot changed |
| `Managers.Manager.RemoveVehicle` | main.java:141-149 | the first spot occupied by a vehicle with `v`'s number is vacated and no other spot changes; with no such spot nothing changes |
| `Managers.GetManager` | main.java:194-201 | a fresh, empty manager of the requested category with the given strategy |
| `Gates.EntryGate.constructor` | main.java:207-209 | the gate is bound to the given manager |
| `Gates.EntryGate.AllowEntry` | main.java:211-213 | exactly the outcome of the manager's `addVehicle`, result included |
| `Gates.ExitGate.constructor` | main.java:218-220 | the gate is bound to the given manager |
| `Gates.ExitGate.AllowExit` | main.java:222-224 | exactly the outcome of the manager's `removeVehicle` |
| `Gates.ExitThenEnter` | main.java:131-149 | after a parked vehicle leaves through the exit gate, the next vehicle at the entry gate of the same manager is admitted |
| `Gates.SetUp` | main.java:230-238 | the demonstration's manager is of the two-wheeler category, uses nearest-to-gate selection and holds the empty two-wheeler spots 1 and 2 |
| `Gates.FirstArrival` | main.java:240-242 | vehicle 101 arriving at the empty lot is given spot 1 |
| `Gates.SecondArrival` | main.java:131-139 | vehicle 102 arriving while spot 1 is taken is given spot 2 |
| `Gates.ThirdArrival` | main.java:131-139 | vehicle 103 arriving at the full lot is refused and nothing changes |
| `Gates.Departure` | main.java:243 | vehicle 101 leaving frees spot 1 and leaves spot 2 as it was |
| `Gates.UnknownDeparture` | main.java:142-149 | a vehicle that never parked leaving raises nothing and changes nothing |

## Left out

- The console output of `main` is not modelled. Its call sequence is replayed by `Gates.SetUp`, `Gates.FirstArrival` and `Gates.Departure`. `Gates.LeaveScenario` drives that sequence, adds an unknown vehicle's exit and a return, and `Gates.FillScenario` fills the lot and turns a third vehicle away. Both are scenario drivers without contracts, not modelled operations.
- Null references are not modelled: a null vehicle, a null spot, or a null category passed to the factory. The factory's "otherwise four-wheeler" branch is the `Four` case of a two-valued category.
- The `ParkingStrategy` interface is open to other implementations in Java. Here the strategy is a closed datatype with the two shipped strategies.
- A vehicle is a value, so an occupant is compared by value, not by object identity. Only the number is ever compared in the source, so no behaviour depends on the difference.
- Java's 32-bit `int` is unbounded here. Ids and numbers are only compared and prices are constants, so no arithmetic can wrap.
- The nearest-to-gate function keeps the earlier spot when ids are equal, as the stream's `min` does. `Strategies.NearestToGateSpec` leaves that choice open.
- `Managers.Manager.AddVehicle` and `Gates.EntryGate.AllowEntry` also return the chosen spot as a ghost value, only so that the contract can name it. The Java methods return only the boolean.
- `Managers.Manager.AddVehicle` does not promise that the vehicle occupies exactly one spot afterwards. The source does not check whether the vehicle is already parked elsewhere, so a second admission of the same vehicle takes a second spot.
- `Managers.Manager.AddSpot` requires the new spot to be consistent (empty exactly when unoccupied). Every Java spot is, since `add` is never given null.
- Spot ids are not required to be unique, matching the source, which does not enforce it.
