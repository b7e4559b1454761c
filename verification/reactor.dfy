/** The fusion reactor facility: its inventories, its operating flag and
    buy-policy switches, and the Tick and Tock steps as functions from one
    state to the next that append what they record to a log. */
module Reactor {
  import opened Materials
  import opened Results
  import opened ResBufs
  import opened Inventory
  import opened ReactorParams
  import opened ReactorLog
  import opened Blanket
  import opened ReactorStartup

  /** Which buy policies are running: the start-up purchase of tritium, the
      refuelling purchases, and the blanket fill. */
  datatype Policies = Policies(startup: bool, refill: bool, blanketFill: bool)

  datatype Plant = Plant(
    storage: ResBuf,          // tritium storage, burnt from
    excess: ResBuf,           // tritium above the reserve, for sale
    sequestered: Material,    // tritium held up in the plant's systems
    blanket: ResBuf,          // lithium blanket, bred from
    blanketExcess: ResBuf,    // blanket material turned over
    helium: ResBuf,           // helium-3 extracted from the tritium
    operational: bool,        // sufficient_tritium_for_operation
    policies: Policies,
    log: seq<Entry>)

  /** What the steps use of the configuration: the parameters and the
      quantities fixed when the reactor enters the simulation. */
  datatype Setup = Setup(cfg: Config, usageMass: real, usageMoles: real, turnover: real, shares: Shares)

  function MakeSetup(cfg: Config, dt: real): (s: Setup)
    ensures s.cfg == cfg && s.turnover == BlanketTurnover(cfg)
    ensures s.usageMoles * MolarMass(Tritium) == s.usageMass
    ensures s.shares.li6 + s.shares.li7 == 1.0 && s.shares.li7 == cfg.li7Contribution
  {
    Setup(cfg, FuelUsageMass(cfg, dt), FuelUsageMoles(cfg, dt), BlanketTurnover(cfg),
          SharesFor(cfg.li7Contribution))
  }

  /** The setup as the source builds it: the lithium-6 share is the one the
      object was constructed with, one minus the lithium-7 parameter's value
      at construction, whatever lithium-7 share is configured later. The
      shares then sum to one only if the two lithium-7 values agree. */
  function MakeSetupAsWritten(cfg: Config, dt: real, li7AtConstruction: real): (s: Setup)
    ensures s.cfg == cfg && s.turnover == BlanketTurnover(cfg)
    ensures s.usageMoles * MolarMass(Tritium) == s.usageMass
    ensures s.shares.li6 == 1.0 - li7AtConstruction && s.shares.li7 == cfg.li7Contribution
    ensures s.shares.li6 + s.shares.li7 == 1.0 <==> li7AtConstruction == cfg.li7Contribution
  {
    Setup(cfg, FuelUsageMass(cfg, dt), FuelUsageMoles(cfg, dt), BlanketTurnover(cfg),
          SharesAsWritten(li7AtConstruction, cfg.li7Contribution))
  }

  /** The setup as written is the intended one exactly when the lithium-7
      share did not change after construction. */
  lemma SetupAsWrittenAgrees(cfg: Config, dt: real, li7AtConstruction: real)
    ensures (MakeSetupAsWritten(cfg, dt, li7AtConstruction) == MakeSetup(cfg, dt))
            <==> li7AtConstruction == cfg.li7Contribution
  {
    if MakeSetupAsWritten(cfg, dt, li7AtConstruction) == MakeSetup(cfg, dt) {
      assert 1.0 - li7AtConstruction == 1.0 - cfg.li7Contribution;
    }
  }

  /** What the steps demand of the setup: a burn that is not negative and a
      turnover frequency of at least one step. */
  predicate Runnable(s: Setup) {
    s.usageMass >= 0.0 && s.cfg.turnoverFrequency >= 1
  }

  /** A new reactor after EnterNotify: empty non-bulk buffers, an empty
      sequestered lot, not operational; the start-up and blanket-fill
      purchases are running and the refuelling purchases are not. */
  function Init(): (p: Plant)
    ensures !p.operational && Mass(p.sequestered) == 0.0 && p.log == []
    ensures IsEmpty(p.storage) && IsEmpty(p.blanket) && !p.storage.bulk
    ensures IsEmpty(p.excess) && IsEmpty(p.blanketExcess) && IsEmpty(p.helium)
    ensures Quantity(p.storage) == 0.0 && Quantity(p.excess) == 0.0 && Quantity(p.helium) == 0.0
    ensures Quantity(p.blanket) == 0.0 && Quantity(p.blanketExcess) == 0.0
    ensures p.policies == Policies(true, false, true)
  {
    Plant(NewBuf(false), NewBuf(false), Nothing, NewBuf(false), NewBuf(false), NewBuf(false),
          false, Policies(true, false, true), [])
  }

  function Record(p: Plant, time: nat, e: Event): (r: Plant)
    ensures r.log == p.log + [Entry(time, e)]
  {
    p.(log := p.log + [Entry(time, e)])
  }

  // ---------------------------------------------------------------------------
  // SequesterTritium.

  /** The mass SequesterTritium asks of storage: the whole equilibrium when
      the sequestered lot is empty, the tritium it lacks otherwise. */
  function SequesterDemand(p: Plant, s: Setup): real {
    if Mass(p.sequestered) == 0.0 then s.cfg.sequesteredEquilibrium
    else Max0(s.cfg.sequesteredEquilibrium - p.sequestered.t)
  }

  function SequesterTritium(p: Plant, s: Setup): (r: Result<Plant, Fault>)
    ensures r.Err? <==> SequesterDemand(p, s) > Quantity(p.storage)
    ensures r.Ok? ==> r.value.excess == p.excess && r.value.helium == p.helium
    ensures r.Ok? ==> r.value.blanket == p.blanket && r.value.blanketExcess == p.blanketExcess
    ensures r.Ok? ==> r.value.operational == p.operational && r.value.policies == p.policies
    ensures r.Ok? ==> r.value.log == p.log
  {
    var t :- PopQty(p.storage, SequesterDemand(p, s));
    if Mass(p.sequestered) == 0.0 then Ok(p.(storage := t.1, sequestered := t.0))
    else Ok(p.(storage := t.1, sequestered := Add(p.sequestered, t.0)))
  }

  // ---------------------------------------------------------------------------
  // OperateReactor.

  /** The lot left after burning `q` of it (ExtractQty, result discarded). */
  function Burnt(fuel: Material, q: real): (r: Material)
    requires 0.0 <= q < Mass(fuel)
    ensures Mass(r) == Mass(fuel) - q
    ensures Valid(fuel) ==> Valid(r)
  {
    if q == 0.0 then fuel else BurntPart(fuel, q)
  }

  function BurntPart(fuel: Material, q: real): (r: Material)
    requires 0.0 < q < Mass(fuel)
    ensures Mass(r) == Mass(fuel) - q
    ensures Valid(fuel) ==> Valid(r)
  {
    var parts := Portion(fuel, q);
    AddMasses(parts.0, parts.1);
    parts.1
  }

  /** The front storage lot is popped. If it holds strictly more than one
      step's burn, the burn is taken out of it, the bred tritium added and the
      lot pushed back; otherwise the core shuts down and the lot goes back
      untouched. */
  function OperateReactor(p: Plant, s: Setup, time: nat): (r: Result<Plant, Fault>)
    requires s.usageMass >= 0.0
    ensures r.Err? <==> IsEmpty(p.storage) || (Mass(p.storage.lots[0]) > s.usageMass && IsEmpty(p.blanket))
    ensures r.Ok? ==> (r.value.operational ==> p.operational) && p.log <= r.value.log
  {
    var f :- Pop(p.storage);
    if Mass(f.0) > s.usageMass then Burn(p, s, time, f.0, f.1)
    else Ok(StopCore(p, time, f.0, f.1))
  }

  function Burn(p: Plant, s: Setup, time: nat, fuel: Material, rest: ResBuf): (r: Result<Plant, Fault>)
    requires 0.0 <= s.usageMass < Mass(fuel)
    ensures r.Err? <==> IsEmpty(p.blanket)
    ensures r.Ok? ==> r.value.operational == p.operational && r.value.policies == p.policies
    ensures r.Ok? ==> p.log <= r.value.log
  {
    var b :- BreedTritium(p.blanket, s.usageMoles, s.cfg.tbr, s.shares);
    Ok(Plant(Push(rest, Add(Burnt(fuel, s.usageMass), b.fuel)), p.excess, p.sequestered,
             b.blanket, p.blanketExcess, p.helium, p.operational, p.policies,
             p.log + Stamp(time, b.events)))
  }

  function StopCore(p: Plant, time: nat, fuel: Material, rest: ResBuf): (r: Plant)
    ensures !r.operational && r.policies == Policies(true, false, false)
    ensures r.log == p.log + [Entry(time, CoreShutdown)]
  {
    Plant(Push(rest, fuel), p.excess, p.sequestered, p.blanket, p.blanketExcess, p.helium,
          false, Policies(true, false, false), p.log + [Entry(time, CoreShutdown)])
  }

  // ---------------------------------------------------------------------------
  // The stages of Tick.

  /** Operation: sequester, burn or shut down, restart the blanket fill and
      record the status. A reactor that is not operational records that it is
      shut down. */
  function OperateStep(p: Plant, s: Setup, time: nat): (r: Result<Plant, Fault>)
    requires s.usageMass >= 0.0
    ensures r.Ok? ==> (r.value.operational ==> p.operational) && p.log <= r.value.log
    ensures !p.operational ==> r == Ok(Record(p, time, StatusRecord(ShutDown, 0.0)))
  {
    if p.operational then RunOnline(p, s, time)
    else Ok(Record(p, time, StatusRecord(ShutDown, 0.0)))
  }

  function RunOnline(p: Plant, s: Setup, time: nat): (r: Result<Plant, Fault>)
    requires s.usageMass >= 0.0
    ensures r.Ok? ==> (r.value.operational ==> p.operational) && p.log <= r.value.log
    ensures r.Ok? ==> r.value.policies.blanketFill
    ensures r.Ok? ==> |r.value.log| > 0
    ensures r.Ok? ==> r.value.log[|r.value.log| - 1] == Entry(time, StatusRecord(Online, s.cfg.fusionPower))
  {
    var p1 :- SequesterTritium(p, s);
    var p2 :- OperateReactor(p1, s, time);
    Ok(Record(p2.(policies := p2.policies.(blanketFill := true)), time,
              StatusRecord(Online, s.cfg.fusionPower)))
  }

  /** Decay of the front lot of storage and of excess, and of the sequestered
      lot. */
  function DecayStep(p: Plant, decay: DecayFn, time: nat): (r: Plant)
    ensures r.operational == p.operational && r.log == p.log && r.policies == p.policies
    ensures r.blanket == p.blanket && r.blanketExcess == p.blanketExcess && r.helium == p.helium
  {
    p.(storage := DecayFront(p.storage, decay, time), excess := DecayFront(p.excess, decay, time),
       sequestered := decay(p.sequestered, time))
  }

  /** Helium-3 extraction from the front lot of storage, then of excess. */
  function HeliumStep(p: Plant): (r: Plant)
    ensures r.operational == p.operational && r.log == p.log && r.policies == p.policies
    ensures r.blanket == p.blanket && r.blanketExcess == p.blanketExcess
    ensures r.sequestered == p.sequestered
  {
    var a := ExtractHelium(p.storage, p.helium);
    var b := ExtractHelium(p.excess, a.1);
    p.(storage := a.0, excess := b.0, helium := b.1)
  }

  /** The tritium an operating reactor holds above its reserve. */
  function Surplus(p: Plant, s: Setup): real {
    Max0(Quantity(p.storage) - s.cfg.reserveInventory)
  }

  /** An operating reactor with tritium in storage moves the surplus to excess
      and merges excess into one lot. */
  function MoveSurplus(p: Plant, s: Setup, time: nat): (r: Result<Plant, Fault>)
    ensures r.Ok? ==> r.value.operational == p.operational && r.value.policies == p.policies
    ensures r.Ok? ==> r.value.blanket == p.blanket && r.value.blanketExcess == p.blanketExcess
    ensures r.Ok? ==> r.value.helium == p.helium && r.value.sequestered == p.sequestered
    ensures r.Ok? ==> p.log <= r.value.log
    ensures IsEmpty(p.storage) || !p.operational || Surplus(p, s) == 0.0 ==> r == Ok(p)
  {
    if !IsEmpty(p.storage) && p.operational && Surplus(p, s) > 0.0 then
      MoveToExcess(p, Surplus(p, s), time)
    else Ok(p)
  }

  function MoveToExcess(p: Plant, surplus: real, time: nat): (r: Result<Plant, Fault>)
    ensures r.Err? <==> surplus > Quantity(p.storage)
    ensures r.Ok? ==> r.value.operational == p.operational && r.value.policies == p.policies
    ensures r.Ok? ==> r.value.blanket == p.blanket && r.value.blanketExcess == p.blanketExcess
    ensures r.Ok? ==> r.value.helium == p.helium && r.value.sequestered == p.sequestered
    ensures r.Ok? ==> r.value.log == p.log + [Entry(time, TritiumMoved(surplus))]
  {
    var t :- PopQty(p.storage, surplus);
    Ok(Plant(t.1, Combine(Push(p.excess, t.0)), p.sequestered, p.blanket, p.blanketExcess,
             p.helium, p.operational, p.policies, p.log + [Entry(time, TritiumMoved(surplus))]))
  }

  /** Whether this step is a turnover step: every `freq`-th step, counted
      from step 0. */
  function TurnoverDue(time: nat, freq: int): bool
    requires freq >= 1
  {
    time % freq == 0
  }

  /** Turnover steps are step 0 and every `freq`-th step after it, and no
      step in between. */
  lemma TurnoverEvery(time: nat, freq: int)
    requires freq >= 1
    ensures TurnoverDue(0, freq)
    ensures TurnoverDue(time + freq, freq) <==> TurnoverDue(time, freq)
    ensures 0 < time < freq ==> !TurnoverDue(time, freq)
  {
    var q, r := time / freq, time % freq;
    RemainderUnique(time + freq, freq, q + 1, r);
    if 0 < time < freq {
      RemainderUnique(time, freq, 0, time);
    }
  }

  /** A remainder in [0, b) with a matching quotient is the remainder. */
  lemma RemainderUnique(a: int, b: int, q: int, r: int)
    requires b >= 1 && 0 <= r < b && a == q * b + r
    ensures a % b == r
  {
    var k := q - a / b;
    assert k * b == a % b - r;
    if k >= 1 {
      assert false;
    } else if k <= -1 {
      assert false;
    }
  }

  /** Division faults of the host's integer arithmetic. */
  datatype ArithmeticFault = ZeroDivisor

  /** The turnover test as the host writes it: the step number modulo the
      configured frequency, for any frequency the declared range admits. C++
      leaves a remainder by zero undefined; it is modelled as a fault. For a
      step number that is not negative the truncating remainder of C++ is
      zero exactly when Dafny's is. */
  function TurnoverDueAsWritten(time: nat, freq: int): (r: Result<bool, ArithmeticFault>)
    ensures r.Err? <==> freq == 0
    ensures freq >= 1 ==> r == Ok(TurnoverDue(time, freq))
  {
    if freq == 0 then Err(ZeroDivisor) else Ok(time % freq == 0)
  }

  /** On turnover steps a non-empty blanket gives up the turnover mass to the
      blanket excess, which is merged into one lot, or, holding less than that,
      records that it was not cycled. */
  function CycleBlanket(p: Plant, s: Setup, time: nat): (r: Result<Plant, Fault>)
    requires s.cfg.turnoverFrequency >= 1
    ensures r.Ok?
    ensures r.Ok? ==> r.value.operational == p.operational && r.value.policies == p.policies
    ensures r.Ok? ==> r.value.storage == p.storage && r.value.excess == p.excess
    ensures r.Ok? ==> r.value.helium == p.helium && r.value.sequestered == p.sequestered
    ensures r.Ok? ==> p.log <= r.value.log
    ensures !TurnoverDue(time, s.cfg.turnoverFrequency) || IsEmpty(p.blanket) ==> r == Ok(p)
  {
    if TurnoverDue(time, s.cfg.turnoverFrequency) && !IsEmpty(p.blanket) then
      if Quantity(p.blanket) >= s.turnover then TurnOver(p, s.turnover, time)
      else Ok(Record(p, time, BlanketNotCycled(Quantity(p.blanket), s.turnover)))
    else Ok(p)
  }

  function TurnOver(p: Plant, turnover: real, time: nat): (r: Result<Plant, Fault>)
    ensures r.Err? <==> turnover > Quantity(p.blanket)
    ensures r.Ok? ==> r.value.operational == p.operational && r.value.policies == p.policies
    ensures r.Ok? ==> r.value.storage == p.storage && r.value.excess == p.excess
    ensures r.Ok? ==> r.value.helium == p.helium && r.value.sequestered == p.sequestered
    ensures r.Ok? ==> r.value.log == p.log + [Entry(time, BlanketCycled(turnover))]
  {
    var t :- PopQty(p.blanket, turnover);
    Ok(Plant(p.storage, p.excess, p.sequestered, t.1, Combine(Push(p.blanketExcess, t.0)),
             p.helium, p.operational, p.policies, p.log + [Entry(time, BlanketCycled(turnover))]))
  }

  // ---------------------------------------------------------------------------
  // Tick and Tock.

  /** The reactor's Tick at simulation time `time`. An exception escaping it
      (a pop from an empty buffer, a pop of more than a buffer holds) ends the
      step with that fault. */
  function Tick(p: Plant, s: Setup, time: nat, decay: DecayFn): (r: Result<Plant, Fault>)
    requires Runnable(s)
    ensures r.Ok? ==> (r.value.operational ==> p.operational)
    ensures r.Ok? ==> p.log <= r.value.log
    ensures !p.operational ==> r.Ok? && |r.value.log| > |p.log|
    ensures !p.operational ==> r.Ok? && r.value.log[|p.log|] == Entry(time, StatusRecord(ShutDown, 0.0))
  {
    var p1 :- OperateStep(p, s, time);
    var p2 := HeliumStep(DecayStep(p1, decay, time));
    var p3 :- MoveSurplus(p2, s, time);
    CycleBlanket(p3, s, time)
  }

  /** A reactor that is not operational tries to start; success switches
      from the start-up purchase to refuelling, failure is recorded. */
  function TryStartup(p: Plant, s: Setup, time: nat): (r: Plant)
    ensures r.storage == p.storage && r.blanket == p.blanket
    ensures r.excess == p.excess && r.blanketExcess == p.blanketExcess
    ensures r.helium == p.helium && r.sequestered == p.sequestered
  {
    match Startup(p.storage, s.cfg.startupInventory, s.usageMass)
    case Ok(_) =>
      Record(p.(operational := true, policies := p.policies.(startup := false, refill := true)),
             time, Started)
    case Err(e) => Record(p, time, StartupError(e))
  }

  /** The quantities Tock records. */
  function InventoryRecord(p: Plant): Event {
    Inventories(Quantity(p.storage), Quantity(p.excess), Mass(p.sequestered),
                Quantity(p.blanket), Quantity(p.blanketExcess), Quantity(p.helium))
  }

  /** The reactor's Tock: the start-up attempt, the merging of storage and
      blanket into one lot each, and the record of the six inventories. */
  function Tock(p: Plant, s: Setup, time: nat): (r: Plant)
  {
    var p1 := if p.operational then p else TryStartup(p, s, time);
    var p2 := p1.(storage := Combine(p1.storage), blanket := Combine(p1.blanket));
    Record(p2, time, InventoryRecord(p2))
  }
}
