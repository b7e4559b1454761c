/** The records the reactor writes to the simulation database, as entries of an
    append-only log. Free-text values are reduced to the numbers they carry. */
module ReactorLog {

  /** ReactorStatus rows. */
  datatype Status = Online | ShutDown

  /** Why a start-up attempt failed, in the order Startup checks. */
  datatype StartupFailure =
    | NothingToPeek                                   // empty storage: Peek throws
    | BelowStartupInventory(held: real, required: real)
    | StartupBelowUsage                               // startup inventory < one step's burn
    | WrongFuel                                       // front lot is not tritium

  datatype Event =
    | StatusRecord(status: Status, power: real)
    | Started                                         // "Startup"
    | CoreShutdown                                    // "Core Shut-down"
    | StartupError(reason: StartupFailure)
    | TritiumMoved(kg: real)
    | BlanketCycled(kg: real)
    | BlanketNotCycled(held: real, wanted: real)
    | BlanketDepletion
    | BreedingError
    | BredTritium(kg: real)
    | Inventories(storage: real, excess: real, sequestered: real,
                  blanket: real, blanketExcess: real, helium: real)

  /** One record, stamped with the simulation time it was written at. */
  datatype Entry = Entry(time: int, event: Event)

  /** Records written within one call, all stamped with the same time. */
  function Stamp(time: int, events: seq<Event>): (r: seq<Entry>)
    ensures |r| == |events|
    ensures forall i :: 0 <= i < |events| ==> r[i] == Entry(time, events[i])
    decreases |events|
  {
    if |events| == 0 then [] else [Entry(time, events[0])] + Stamp(time, events[1..])
  }
}
