/** What the reactor's steps guarantee: mass conservation across its buffers,
    the thresholds that decide each branch, and the two-state machine that
    Tick and Tock drive. */
module ReactorProperties {
  import opened Materials
  import opened Results
  import opened ResBufs
  import opened Inventory
  import opened ReactorParams
  import opened ReactorLog
  import opened Blanket
  import opened ReactorStartup
  import opened Reactor

  // ---------------------------------------------------------------------------
  // SequesterTritium.

  /** Sequestering moves tritium from storage into the sequestered lot and
      nothing is lost: an empty sequestered lot is replaced by the
      equilibrium mass, a non-empty one is topped up by the tritium it lacks,
      and either way it ends at or above the equilibrium. */
  lemma SequesterConserves(p: Plant, s: Setup)
    requires Valid(p.sequestered)
    ensures var r := SequesterTritium(p, s);
            r.Ok? ==>
              && Quantity(r.value.storage) + Mass(r.value.sequestered)
                   == Quantity(p.storage) + Mass(p.sequestered)
              && (Mass(p.sequestered) == 0.0 ==>
                    Mass(r.value.sequestered) == Max0(s.cfg.sequesteredEquilibrium))
              && (Mass(p.sequestered) != 0.0 ==>
                    Mass(r.value.sequestered) == Mass(p.sequestered)
                      + Max0(s.cfg.sequesteredEquilibrium - p.sequestered.t))
              && Mass(r.value.sequestered) >= s.cfg.sequesteredEquilibrium
  {
    var t := PopQty(p.storage, SequesterDemand(p, s));
    if t.Ok? {
      var r := SequesterTritium(p, s).value;
      var x := t.value.0;
      assert r.storage == t.value.1;
      if Mass(p.sequestered) == 0.0 {
        assert r.sequestered == x;
      } else {
        assert r.sequestered == Add(p.sequestered, x);
        TopUp(p.sequestered, x, s.cfg.sequesteredEquilibrium);
      }
    }
  }

  /** Adding the tritium a valid lot lacks brings it to the equilibrium. */
  lemma TopUp(held: Material, x: Material, eq: real)
    requires Valid(held) && Mass(x) == Max0(Max0(eq - held.t))
    ensures Mass(Add(held, x)) == Mass(held) + Max0(eq - held.t)
    ensures Mass(Add(held, x)) >= eq
  {
    AddMasses(held, x);
    assert Mass(held) >= held.t;
  }

  // ---------------------------------------------------------------------------
  // OperateReactor.

  /** A front lot holding strictly more than one step's burn is burnt: storage
      changes by exactly minus the burn plus the bred tritium, the blanket is
      what breeding left, and the reactor stays operational. */
  lemma OperateBurns(p: Plant, s: Setup, time: nat)
    requires s.usageMass >= 0.0
    requires !IsEmpty(p.storage) && Mass(p.storage.lots[0]) > s.usageMass
    requires !IsEmpty(p.blanket)
    ensures var r := OperateReactor(p, s, time);
            var b := BreedTritium(p.blanket, s.usageMoles, s.cfg.tbr, s.shares);
            && r.Ok? && b.Ok?
            && Quantity(r.value.storage) == Quantity(p.storage) - s.usageMass + Mass(b.value.fuel)
            && r.value.blanket == b.value.blanket
            && r.value.operational == p.operational && r.value.policies == p.policies
            && r.value.log == p.log + Stamp(time, b.value.events)
            && r.value.excess == p.excess && r.value.helium == p.helium
            && r.value.sequestered == p.sequestered && r.value.blanketExcess == p.blanketExcess
  {
    var f := Pop(p.storage).value;
    var b := BreedTritium(p.blanket, s.usageMoles, s.cfg.tbr, s.shares).value;
    var burnt := Burnt(f.0, s.usageMass);
    AddMasses(burnt, b.fuel);
  }

  /** A front lot holding no more than one step's burn shuts the core down:
      the lot goes back, storage holds what it held, the refuelling and
      blanket purchases stop, the start-up purchase starts again and the
      shut-down is recorded. */
  lemma OperateShutsDown(p: Plant, s: Setup, time: nat)
    requires s.usageMass >= 0.0
    requires !IsEmpty(p.storage) && Mass(p.storage.lots[0]) <= s.usageMass
    ensures var r := OperateReactor(p, s, time);
            && r.Ok?
            && !r.value.operational
            && r.value.policies == Policies(true, false, false)
            && Content(r.value.storage.lots) == Content(p.storage.lots)
            && Quantity(r.value.storage) == Quantity(p.storage)
            && r.value.log == p.log + [Entry(time, CoreShutdown)]
            && r.value.blanket == p.blanket && r.value.excess == p.excess
            && r.value.helium == p.helium && r.value.sequestered == p.sequestered
  {
    var f := Pop(p.storage).value;
    AddComm(f.0, Content(f.1.lots));
  }

  // ---------------------------------------------------------------------------
  // Decay and helium extraction.

  /** The tritium-side mass: storage, excess, helium and the sequestered lot. */
  function TritiumSide(p: Plant): real {
    Quantity(p.storage) + Quantity(p.excess) + Quantity(p.helium) + Mass(p.sequestered)
  }

  /** Decay and helium extraction conserve the tritium side's mass, and the
      helium buffer gains exactly the helium-3 of the two front lots. */
  lemma HousekeepingConserves(p: Plant, decay: DecayFn, time: nat)
    requires DecayLaw(decay)
    ensures var d := DecayStep(p, decay, time);
            var r := HeliumStep(d);
            && TritiumSide(r) == TritiumSide(p)
            && Quantity(r.helium) == Quantity(p.helium) + FrontHe3(d.storage) + FrontHe3(d.excess)
  {
    DecayConserves(p, decay, time);
    HeliumConserves(DecayStep(p, decay, time));
  }

  lemma DecayConserves(p: Plant, decay: DecayFn, time: nat)
    requires DecayLaw(decay)
    ensures TritiumSide(DecayStep(p, decay, time)) == TritiumSide(p)
  {
    DecayFrontLaw(p.storage, decay, time);
    DecayFrontLaw(p.excess, decay, time);
    assert Mass(decay(p.sequestered, time)) == Mass(p.sequestered);
  }

  lemma HeliumConserves(d: Plant)
    ensures var r := HeliumStep(d);
            && TritiumSide(r) == TritiumSide(d)
            && Quantity(r.helium) == Quantity(d.helium) + FrontHe3(d.storage) + FrontHe3(d.excess)
  {
    HeliumKeepsSide(d);
    HeliumGain(d);
  }

  lemma HeliumKeepsSide(d: Plant)
    ensures TritiumSide(HeliumStep(d)) == TritiumSide(d)
  {
    var qs, qe, qh := HeliumBalances(d.storage, d.excess, d.helium);
    SideBalance(HeliumStep(d), d, qs, qe, qh);
  }

  /** Two plants with the same sequestered lot whose storage, excess and
      helium quantities sum alike have the same tritium side. */
  lemma SideBalance(r: Plant, d: Plant, qs: real, qe: real, qh: real)
    requires Quantity(r.storage) == qs && Quantity(r.excess) == qe && Quantity(r.helium) == qh
    requires r.sequestered == d.sequestered
    requires qs + qe + qh == Quantity(d.storage) + Quantity(d.excess) + Quantity(d.helium)
    ensures TritiumSide(r) == TritiumSide(d)
  {
  }

  lemma HeliumGain(d: Plant)
    ensures Quantity(HeliumStep(d).helium) == Quantity(d.helium) + FrontHe3(d.storage) + FrontHe3(d.excess)
  {
    var qs, qe, qh := HeliumBalances(d.storage, d.excess, d.helium);
  }

  /** The two extractions of HeliumStep, as quantities. */
  lemma HeliumBalances(storage: ResBuf, excess: ResBuf, helium: ResBuf) returns (qs: real, qe: real, qh: real)
    ensures var a := ExtractHelium(storage, helium);
            var b := ExtractHelium(excess, a.1);
            && qs == Quantity(a.0) && qe == Quantity(b.0) && qh == Quantity(b.1)
            && qh == Quantity(helium) + FrontHe3(storage) + FrontHe3(excess)
            && qs + qe + qh == Quantity(storage) + Quantity(excess) + Quantity(helium)
  {
    var a := ExtractHelium(storage, helium);
    var b := ExtractHelium(excess, a.1);
    ExtractHeliumQuantities(storage, helium);
    ExtractHeliumQuantities(excess, a.1);
    qs, qe, qh := Quantity(a.0), Quantity(b.0), Quantity(b.1);
  }

  // ---------------------------------------------------------------------------
  // Surplus rebalancing.

  /** An operating reactor with tritium in storage and a reserve that is not
      negative moves its surplus to excess: nothing is lost, storage ends at
      or below the reserve, exactly at it when there was a surplus. */
  lemma SurplusRebalances(p: Plant, s: Setup, time: nat)
    requires p.operational && !IsEmpty(p.storage) && s.cfg.reserveInventory >= 0.0
    ensures var r := MoveSurplus(p, s, time);
            && r.Ok?
            && Quantity(r.value.storage) + Quantity(r.value.excess)
                 == Quantity(p.storage) + Quantity(p.excess)
            && Quantity(r.value.storage) <= s.cfg.reserveInventory
            && (Surplus(p, s) > 0.0 ==>
                  Quantity(r.value.storage) == s.cfg.reserveInventory
                  && r.value.log == p.log + [Entry(time, TritiumMoved(Surplus(p, s)))])
            && (Surplus(p, s) == 0.0 ==> r.value == p)
  {
    if Surplus(p, s) > 0.0 {
      var t := PopQty(p.storage, Surplus(p, s)).value;
      CombineKeeps(Push(p.excess, t.0));
    }
  }

  /** A negative reserve makes the surplus larger than storage, and the pop
      of it fails. */
  lemma NegativeReserveOverdraws(p: Plant, s: Setup, time: nat)
    requires p.operational && !IsEmpty(p.storage) && AllValid(p.storage.lots)
    requires s.cfg.reserveInventory < 0.0
    ensures MoveSurplus(p, s, time).Err?
  {
    QuantityNonneg(p.storage);
  }

  // ---------------------------------------------------------------------------
  // Blanket turnover.

  /** On a turnover step a blanket holding at least the turnover mass gives up
      exactly that mass to the blanket excess; one holding less changes
      nothing and records that it was not cycled. */
  lemma TurnoverMoves(p: Plant, s: Setup, time: nat)
    requires s.cfg.turnoverFrequency >= 1 && s.turnover >= 0.0
    requires TurnoverDue(time, s.cfg.turnoverFrequency) && !IsEmpty(p.blanket)
    ensures var r := CycleBlanket(p, s, time).value;
            && (Quantity(p.blanket) >= s.turnover ==>
                  && Quantity(r.blanket) == Quantity(p.blanket) - s.turnover
                  && Quantity(r.blanketExcess) == Quantity(p.blanketExcess) + s.turnover
                  && r.log == p.log + [Entry(time, BlanketCycled(s.turnover))])
            && (Quantity(p.blanket) < s.turnover ==>
                  r == p.(log := p.log + [Entry(time, BlanketNotCycled(Quantity(p.blanket), s.turnover))]))
  {
    if Quantity(p.blanket) >= s.turnover {
      assert CycleBlanket(p, s, time) == TurnOver(p, s.turnover, time);
      TurnOverMoves(p, s.turnover, time);
    }
  }

  lemma TurnOverMoves(p: Plant, turnover: real, time: nat)
    requires 0.0 <= turnover <= Quantity(p.blanket)
    ensures var r := TurnOver(p, turnover, time).value;
            && Quantity(r.blanket) == Quantity(p.blanket) - turnover
            && Quantity(r.blanketExcess) == Quantity(p.blanketExcess) + turnover
  {
    MoveMerged(p.blanket, p.blanketExcess, turnover);
    var t := PopQty(p.blanket, turnover).value;
    var r := TurnOver(p, turnover, time).value;
    assert r.blanket == t.1 && r.blanketExcess == Combine(Push(p.blanketExcess, t.0));
  }

  /** The declared range of the turnover frequency admits 0, for which the
      host's turnover test divides by zero on every step; with the default
      parameters otherwise. */
  lemma ZeroFrequencyAdmitted(time: nat)
    ensures var c := WithDefaults(1.0, 1.0, 1.0, 1.0, 1.0).(turnoverFrequency := 0);
            && InDeclaredRanges(c)
            && TurnoverDueAsWritten(time, c.turnoverFrequency) == Err(ZeroDivisor)
  {
    DefaultsInRange(1.0, 1.0, 1.0, 1.0, 1.0);
  }

  // ---------------------------------------------------------------------------
  // The state machine.

  /** A reactor that is shut down and has an empty blanket stays shut down
      through Tick, which records "Shut-down" at power 0 and nothing else. */
  lemma ShutDownTick(p: Plant, s: Setup, time: nat, decay: DecayFn)
    requires Runnable(s) && !p.operational && IsEmpty(p.blanket)
    ensures var r := Tick(p, s, time, decay);
            && r.Ok? && !r.value.operational
            && r.value.log == p.log + [Entry(time, StatusRecord(ShutDown, 0.0))]
  {
    var p1 := Record(p, time, StatusRecord(ShutDown, 0.0));
    assert OperateStep(p, s, time) == Ok(p1);
    var p2 := HeliumStep(DecayStep(p1, decay, time));
    assert p2.log == p1.log && !p2.operational && IsEmpty(p2.blanket);
    assert MoveSurplus(p2, s, time) == Ok(p2);
    assert CycleBlanket(p2, s, time) == Ok(p2);
  }

  /** Only Tock starts the reactor: Tick never sets the operating flag. A
      reactor that is already operational stays so through Tock, and one that
      is not starts exactly when its start-up checks pass (StartupGate says
      when that is). */
  lemma TockGate(p: Plant, s: Setup, time: nat)
    ensures p.operational ==> Tock(p, s, time).operational
    ensures !p.operational ==>
              (Tock(p, s, time).operational <==> Startup(p.storage, s.cfg.startupInventory, s.usageMass).Ok?)
  {
  }

  /** A failed start-up is caught: the first failed check is recorded as a
      "Startup Error", then the inventories as they were; the flag stays
      down and the purchases are not switched. By StartupGate the check
      fails exactly when StartupReady does not hold. */
  lemma TockStartupFailure(p: Plant, s: Setup, time: nat)
    requires !p.operational && Startup(p.storage, s.cfg.startupInventory, s.usageMass).Err?
    ensures var r := Tock(p, s, time);
            var e := Startup(p.storage, s.cfg.startupInventory, s.usageMass);
            && !r.operational && r.policies == p.policies
            && r.log == p.log + [Entry(time, StartupError(e.error)), Entry(time, InventoryRecord(p))]
  {
    var e := Startup(p.storage, s.cfg.startupInventory, s.usageMass).error;
    var p1 := TryStartup(p, s, time);
    assert p1 == Record(p, time, StartupError(e));
    var p2 := p1.(storage := Combine(p1.storage), blanket := Combine(p1.blanket));
    assert Tock(p, s, time) == Record(p2, time, InventoryRecord(p2));
    MergedRecord(p1);
    assert InventoryRecord(p1) == InventoryRecord(p);
  }

  /** Merging storage and blanket changes none of the recorded quantities. */
  lemma MergedRecord(p: Plant)
    ensures InventoryRecord(p.(storage := Combine(p.storage), blanket := Combine(p.blanket)))
              == InventoryRecord(p)
  {
    CombineKeeps(p.storage);
    CombineKeeps(p.blanket);
  }

  /** A successful start-up records "Startup", switches from the start-up
      purchase to refuelling and leaves storage as it was: nothing is moved. */
  lemma TockStartupSuccess(p: Plant, s: Setup, time: nat)
    requires !p.operational && StartupReady(p.storage, s.cfg.startupInventory, s.usageMass)
    ensures var r := Tock(p, s, time);
            && r.operational
            && r.policies == p.policies.(startup := false, refill := true)
            && r.log[|p.log|] == Entry(time, Started)
            && Quantity(r.storage) == Quantity(p.storage)
  {
    StartupGate(p.storage, s.cfg.startupInventory, s.usageMass);
    var p1 := TryStartup(p, s, time);
    assert p1 == Record(p.(operational := true, policies := p.policies.(startup := false, refill := true)),
                        time, Started);
    var p2 := p1.(storage := Combine(p1.storage), blanket := Combine(p1.blanket));
    assert Tock(p, s, time) == Record(p2, time, InventoryRecord(p2));
    CombineKeeps(p.storage);
  }

  /** Tock merges storage and blanket into at most one lot each, changes no
      quantity, and records the six quantities the reactor holds. */
  lemma TockRecords(p: Plant, s: Setup, time: nat)
    ensures var r := Tock(p, s, time);
            && |r.storage.lots| <= 1 && |r.blanket.lots| <= 1
            && Content(r.storage.lots) == Content(p.storage.lots)
            && Content(r.blanket.lots) == Content(p.blanket.lots)
            && |r.log| > 0
            && r.log[|r.log| - 1] == Entry(time, Inventories(
                 Quantity(p.storage), Quantity(p.excess), Mass(p.sequestered),
                 Quantity(p.blanket), Quantity(p.blanketExcess), Quantity(p.helium)))
  {
    CombineKeeps(p.storage);
    CombineKeeps(p.blanket);
  }
}
