/** The reactor's input parameters, their declared ranges and defaults, and
    the quantities derived from them when the reactor enters the simulation. */
module ReactorParams {
  import opened Materials
  import opened Results

  /** Tritium burnt per GW of fusion power per year, in kg. */
  const BurnRate: real := 55.8
  const MWtoGW: real := 1000.0
  /** Twelve months of 2629846 seconds. */
  const SecondsPerYear: real := 31558152.0
  /** Length of the host's default time step, one month in seconds. */
  const SecondsPerMonth: real := 2629846.0

  /** Inventory limits of the buy policies' trackers, in kg. */
  const FuelLimit: real := 1000.0
  const BlanketLimit: real := 100000.0

  /** How the reactor buys fuel after start-up. */
  datatype RefuelMode = Schedule | Fill

  function ModeName(mode: RefuelMode): string {
    match mode
    case Schedule => "schedule"
    case Fill => "fill"
  }

  /** The exception raised for a refuel mode that is neither of the two. */
  datatype ConfigError = UnknownRefuelMode(mode: string)

  /** The check at the end of entering the simulation: "schedule" and "fill"
      are the only recognised refuel modes. */
  function ParseRefuelMode(s: string): (r: Result<RefuelMode, ConfigError>)
    ensures r.Ok? <==> (s == ModeName(Schedule) || s == ModeName(Fill))
    ensures r.Ok? ==> ModeName(r.value) == s
    ensures r.Err? ==> r.error == UnknownRefuelMode(s)
  {
    if s == "schedule" then Ok(Schedule)
    else if s == "fill" then Ok(Fill)
    else Err(UnknownRefuelMode(s))
  }

  lemma ParseModeName(mode: RefuelMode)
    ensures ParseRefuelMode(ModeName(mode)) == Ok(mode)
  {
  }

  /** The user-facing parameters. Commodity and recipe names only wire the
      market and are left out. */
  datatype Config = Config(
    fusionPower: real,              // MW
    tbr: real,                      // tritium breeding ratio
    startupInventory: real,         // kg
    reserveInventory: real,         // kg
    sequesteredEquilibrium: real,   // kg
    refuelMode: string,
    buyQuantity: real,              // kg
    buyFrequency: int,              // time steps
    li7Contribution: real,          // share of bred tritium from lithium-7
    blanketSize: real,              // kg
    turnoverRate: real,             // share of the blanket replaced per turnover
    turnoverFrequency: int          // time steps between turnovers
  )

  /** The declared ranges. Reserve and sequestered equilibrium have none. */
  predicate InDeclaredRanges(c: Config) {
    && 0.0 <= c.fusionPower && 0.0 <= c.tbr && 0.0 <= c.startupInventory
    && 0.0 <= c.buyQuantity && 0 <= c.buyFrequency
    && 0.0 <= c.li7Contribution <= 1.0
    && 0.0 <= c.blanketSize <= 10000.0
    && 0.0 <= c.turnoverRate <= 0.15
    && 0 <= c.turnoverFrequency <= 1000
  }

  /** A configuration giving only the required parameters takes these
      defaults for the others. */
  function WithDefaults(fusionPower: real, tbr: real, startupInventory: real,
                        reserveInventory: real, sequesteredEquilibrium: real): (c: Config)
    ensures c.refuelMode == ModeName(Fill)
    ensures c.buyQuantity == 0.1 && c.buyFrequency == 1
    ensures c.li7Contribution == 0.03 && c.blanketSize == 1000.0
    ensures c.turnoverRate == 0.05 && c.turnoverFrequency == 1
  {
    Config(fusionPower, tbr, startupInventory, reserveInventory, sequesteredEquilibrium,
           "fill", 0.1, 1, 0.03, 1000.0, 0.05, 1)
  }

  /** The defaults lie in the declared ranges. */
  lemma DefaultsInRange(fusionPower: real, tbr: real, startupInventory: real,
                        reserveInventory: real, sequesteredEquilibrium: real)
    requires 0.0 <= fusionPower && 0.0 <= tbr && 0.0 <= startupInventory
    ensures InDeclaredRanges(WithDefaults(fusionPower, tbr, startupInventory,
                                          reserveInventory, sequesteredEquilibrium))
  {
  }

  // ---------------------------------------------------------------------------
  // Quantities fixed when the reactor enters the simulation.

  /** Fuel burnt per time step of `dt` seconds: the burn rate for the
      configured power, spread over a year. */
  function FuelUsageMass(c: Config, dt: real): real {
    BurnRate * (c.fusionPower / MWtoGW) / SecondsPerYear * dt
  }

  /** Moles of tritium burnt per time step: the burnt atoms over Avogadro's
      number. */
  function FuelUsageMoles(c: Config, dt: real): real {
    FuelUsageMass(c, dt) / MolarMass(Tritium)
  }

  /** Blanket mass replaced at each turnover. */
  function BlanketTurnover(c: Config): real {
    c.blanketSize * c.turnoverRate
  }

  datatype Derived = Derived(fuelUsageMass: real, fuelUsageMoles: real, blanketTurnover: real)

  /** The quantities EnterNotify computes, and the refuel-mode check that ends
      it with an exception. */
  function EnterNotify(c: Config, dt: real): (r: Result<(RefuelMode, Derived), ConfigError>)
    ensures r.Err? <==> ParseRefuelMode(c.refuelMode).Err?
    ensures r.Ok? ==> r.value.0 == ParseRefuelMode(c.refuelMode).value
    ensures r.Ok? ==> r.value.1.fuelUsageMoles * MolarMass(Tritium) == r.value.1.fuelUsageMass
  {
    var mode :- ParseRefuelMode(c.refuelMode);
    Ok((mode, Derived(FuelUsageMass(c, dt), FuelUsageMoles(c, dt), BlanketTurnover(c))))
  }

  /** Over a year of monthly steps the reactor burns the burn rate times its
      power in GW. */
  lemma YearOfMonthlyUsage(c: Config)
    ensures 12.0 * FuelUsageMass(c, SecondsPerMonth) == BurnRate * (c.fusionPower / MWtoGW)
  {
  }

  /** Fuel usage grows with power and is zero for a reactor without power. */
  lemma FuelUsageMonotone(c: Config, d: Config, dt: real)
    requires dt >= 0.0 && c.fusionPower <= d.fusionPower
    ensures FuelUsageMass(c, dt) <= FuelUsageMass(d, dt)
    ensures c.fusionPower == 0.0 ==> FuelUsageMass(c, dt) == 0.0
  {
    var k := BurnRate / MWtoGW / SecondsPerYear;
    assert FuelUsageMass(c, dt) == c.fusionPower * k * dt;
    assert FuelUsageMass(d, dt) == d.fusionPower * k * dt;
    assert (d.fusionPower - c.fusionPower) * (k * dt) >= 0.0;
  }

  /** The turnover mass is at most 15% of the blanket size. */
  lemma TurnoverBounded(c: Config)
    requires InDeclaredRanges(c)
    ensures 0.0 <= BlanketTurnover(c) <= 0.15 * c.blanketSize
  {
    assert c.blanketSize * (0.15 - c.turnoverRate) >= 0.0;
  }
}
