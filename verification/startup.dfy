/** The reactor's start-up gate: enough tritium in storage, a start-up
    inventory that covers one step's burn, and a front lot that is tritium. */
module ReactorStartup {
  import opened Materials
  import opened Results
  import opened ResBufs
  import opened ReactorLog

  /** Tolerance of the composition comparison. */
  const PurityTolerance: real := 0.0000001

  function Abs(x: real): real {
    if x < 0.0 then -x else x
  }

  /** Atom fractions of pure tritium. */
  function TritiumFraction(n: Nuclide): real {
    if n == Tritium then 1.0 else 0.0
  }

  /** The moles of `n` a lot of pure tritium with as many atoms as `m` holds. */
  function PureShare(m: Material, n: Nuclide): real {
    if n == Tritium then TotalMoles(m) else 0.0
  }

  /** The lot's atom composition lies within the tolerance of pure tritium,
      nuclide by nuclide: each nuclide's moles differ from pure tritium's by at
      most the tolerance times the lot's atoms. A lot without atoms has no
      composition to compare. */
  predicate NearlyPureTritium(m: Material) {
    && TotalMoles(m) > 0.0
    && Within(m, Tritium) && Within(m, He3) && Within(m, He4) && Within(m, Li6) && Within(m, Li7)
  }

  predicate Within(m: Material, n: Nuclide) {
    Abs(Moles(m, n) - PureShare(m, n)) <= PurityTolerance * TotalMoles(m)
  }

  /** The comparison is the one the host makes on normalised compositions:
      every atom fraction within the tolerance of pure tritium's. */
  lemma PurityByFractions(m: Material)
    ensures NearlyPureTritium(m) <==>
              && TotalMoles(m) > 0.0
              && forall n :: Abs(AtomFraction(m, n) - TritiumFraction(n)) <= PurityTolerance
  {
    if TotalMoles(m) > 0.0 {
      forall n ensures Abs(AtomFraction(m, n) - TritiumFraction(n)) <= PurityTolerance <==> Within(m, n) {
        ScaledDeviation(Moles(m, n), TotalMoles(m), TritiumFraction(n));
      }
    }
  }

  /** A deviation of a ratio, scaled by its positive denominator. */
  lemma ScaledDeviation(a: real, total: real, f: real)
    requires total > 0.0
    ensures Abs(a / total - f) <= PurityTolerance <==> Abs(a - f * total) <= PurityTolerance * total
  {
    var d := a / total - f;
    assert a / total * total == a;
    assert a - f * total == d * total;
    SignOfProduct(d - PurityTolerance, total);
    SignOfProduct(-d - PurityTolerance, total);
    SignOfProduct(d, total);
  }

  lemma SignOfProduct(x: real, t: real)
    requires t > 0.0
    ensures x <= 0.0 <==> x * t <= 0.0
    ensures x >= 0.0 <==> x * t >= 0.0
  {
  }

  /** Pure tritium passes the comparison. */
  lemma PureTritiumPasses(x: real)
    requires x > 0.0
    ensures NearlyPureTritium(Pure(Tritium, x))
  {
    var m := Pure(Tritium, x);
    MolesWeigh(m, Tritium);
    MolesWeigh(m, He3);
    MolesWeigh(m, He4);
    MolesWeigh(m, Li6);
    MolesWeigh(m, Li7);
    assert TotalMoles(m) == Moles(m, Tritium) > 0.0;
  }

  /** A lot more than the tolerance away from tritium in its helium-3 atom
      fraction fails. */
  lemma HeliumFails(m: Material)
    requires AtomFraction(m, He3) > PurityTolerance
    ensures !NearlyPureTritium(m)
  {
    PurityByFractions(m);
    assert Abs(AtomFraction(m, He3) - TritiumFraction(He3)) > PurityTolerance;
  }

  /** The three checks, in the order they are made, after a Peek of the front
      lot (which throws on an empty storage); the first failing check decides
      the error. */
  function Startup(storage: ResBuf, startupInventory: real, usageMass: real): (r: Result<(), StartupFailure>)
    ensures IsEmpty(storage) ==> r == Err(NothingToPeek)
    ensures r.Err? && r.error.BelowStartupInventory? ==>
              r.error == BelowStartupInventory(Quantity(storage), startupInventory)
  {
    match Peek(storage)
    case Err(_) => Err(NothingToPeek)
    case Ok(front) =>
      if Quantity(storage) < startupInventory then
        Err(BelowStartupInventory(Quantity(storage), startupInventory))
      else if startupInventory < usageMass then Err(StartupBelowUsage)
      else if !NearlyPureTritium(front) then Err(WrongFuel)
      else Ok(())
  }

  /** The conditions for starting, all at once. */
  predicate StartupReady(storage: ResBuf, startupInventory: real, usageMass: real) {
    && !IsEmpty(storage)
    && Quantity(storage) >= startupInventory
    && startupInventory >= usageMass
    && NearlyPureTritium(storage.lots[0])
  }

  /** Start-up succeeds exactly when every check passes, and each failure is
      reported by the first check that fails. */
  lemma StartupGate(storage: ResBuf, startupInventory: real, usageMass: real)
    ensures var r := Startup(storage, startupInventory, usageMass);
            && (r.Ok? <==> StartupReady(storage, startupInventory, usageMass))
            && (r == Err(NothingToPeek) <==> IsEmpty(storage))
            && (r.Err? && r.error.BelowStartupInventory? <==>
                  !IsEmpty(storage) && Quantity(storage) < startupInventory)
            && (r == Err(StartupBelowUsage) <==>
                  !IsEmpty(storage) && Quantity(storage) >= startupInventory
                  && startupInventory < usageMass)
            && (r == Err(WrongFuel) <==>
                  !IsEmpty(storage) && Quantity(storage) >= startupInventory
                  && startupInventory >= usageMass && !NearlyPureTritium(storage.lots[0]))
  {
  }
}
