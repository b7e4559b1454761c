# Tricycle reactor and decay storage, modelled in Dafny

This project models the two facilities of the tricycle fusion fuel-cycle
archetypes for the Cyclus simulator.

- **Reactor** burns tritium from a storage buffer and breeds new tritium in a lithium blanket.
  - It keeps tritium sequestered in its systems.
  - It decays its tritium inventories and strips out the helium-3 that decay produces.
  - It moves tritium above its reserve to an excess buffer for sale.
  - It cycles part of the blanket out at a configured frequency.
  - It records its status and inventories.
  - A two-state machine drives it: Tick burns only while the reactor is operational, and only Tock can start it.
- **DecayStorage** is a bulk tritium store. It decays its contents every step and moves the helium-3 into a helium store that nothing drains.

Each step is a pure function from one facility state to the next. Records go
to an append-only log. An exception that would escape a step becomes the `Err` of a `Result`:
- a pop from an empty buffer;
- a pop of more than a buffer holds;
- an unknown refuel mode.

Modules:

| module | file | what it holds |
|---|---|---|
| `Results` | results.dfy | `Result` with failure propagation |
| `Materials` | materials.dfy | a lot as the kg of each of the five nuclides; absorb, scale, extract; moles and atom fractions; the decay law |
| `ResBufs` | resbuf.dfy | the resource buffer: push, pop, peek, pop of a quantity, bulk buffers |
| `Inventory` | inventory.dfy | CombineInventory, ExtractHelium, DecayInventory and the buffer-wide decay |
| `ReactorParams` | reactor_params.dfy | parameters, declared ranges and defaults, the quantities EnterNotify derives, the refuel-mode check |
| `ReactorLog` | reactor_log.dfy | the records the reactor writes |
| `Blanket` | blanket.dfy | DepleteBlanket and BreedTritium |
| `ReactorStartup` | startup.dfy | the start-up checks and the fuel-purity comparison |
| `Reactor` | reactor.dfy | the plant state, SequesterTritium, OperateReactor, the stages of Tick, Tick and Tock |
| `ReactorProperties` | reactor_properties.dfy | conservation, branch thresholds and the state machine, across several calls |
| `ReactorTrades` | reactor_trades.dfy | deliveries into and sales out of the reactor's buffers |
| `DecayStorage` | decay_storage.dfy | the DecayStorage facility |

Parameters of the model:
- Radioactive decay is a function parameter. The ghost predicate `DecayLaw` constrains it: mass is kept, tritium never increases, helium-3 never decreases, and masses stay non-negative.
- The time-step length `dt` is a parameter of `MakeSetup` and of `EnterNotify`.
- The simulation time is a parameter of every step.

Where the code and its documentation disagree, the model follows the code:
- Startup (src/reactor.cc:146-167) only checks storage. It loads nothing into the core. The class comment (src/reactor.h:73-74) describes loading the core.
- Turnover (src/reactor.cc:44-58) removes blanket mass but pushes no fresh blanket back. The parameter documentation (src/reactor.h:55-57) says removed blanket is replaced.
- Nothing replaces the mass lost to helium-3 extraction (src/reactor.h:65-66).
- On the step where OperateReactor shuts the core down, Tick still records status "Online". The blanket-fill purchase that OperateReactor stopped is also started again (src/reactor.cc:15-17).
- DecayInventory decays only the front lot of a buffer (src/reactor.cc:169-176). DecayStorage decays every lot (src/decay_storage.cc:53).
- Startup peeks at storage before it checks the quantity, so an empty storage fails at the peek. It compares only the front lot's composition.
- OperateReactor compares only the front storage lot with one step's burn.
- SequesterTritium replaces the sequestered lot when its mass is zero, and tops it up otherwise.
- BreedTritium pops the front blanket lot after DepleteBlanket pushed the depleted lot to the back. The two are the same lot only when the blanket holds one lot, which Tock's merging ensures after the first step.
- The one exception is the lithium-6 share, which the code fixes at construction (src/reactor.h:310). `Reactor.MakeSetupAsWritten` models that code. The steps run on the corrected `Reactor.MakeSetup`, as the first row of "## Findings" explains.

## Model

| member | source | states |
|---|---|---|
| Materials.IdsDistinct | src/reactor.h:314-318 | the nuclide ids are the ZZAAAMMMM numbers of their atomic and mass numbers, and two nuclides share an id only if they are the same nuclide |
| Materials.FromMoles | src/reactor.cc:273-290 | a lot built from a mole count for each nuclide holds exactly those moles, because mass is moles times the per-atom mass times Avogadro's number |
| Materials.ExtractWhole | src/reactor.cc:192-203 | extracting the whole mass of one nuclide leaves the stripped lot, which together with the pure extracted lot is the original lot; the lot loses exactly that nuclide's mass |
| ResBufs.Push | src/decay_storage.cc:10-13 | a push adds the lot's contents and mass to the buffer; a non-bulk or empty buffer appends it; a bulk buffer stays at one lot; physical lots stay physical |
| ResBufs.Pop | src/reactor.cc:318 | Pop fails exactly on an empty buffer; otherwise it returns the front lot and the rest, which together hold what the buffer held |
| ResBufs.Peek | src/reactor.cc:147 | Peek fails exactly on an empty buffer and otherwise reads the front lot |
| ResBufs.PopQty | src/reactor.cc:35 | a pop of a quantity fails exactly when it asks for more than the buffer holds; otherwise the lot taken weighs the request (nothing for a request of zero or less), and the lot taken plus the rest is the buffer's former content |
| ResBufs.Squash | src/reactor.cc:181-186 | absorbing every remaining lot into the front lot, in order, gives the buffer's whole content |
| Inventory.Combine | src/reactor.cc:178-190 | CombineInventory leaves an empty buffer empty and turns any other buffer into a single lot holding its whole content |
| Inventory.CombineKeeps | src/reactor.cc:178-190 | merging leaves at most one lot and keeps the contents nuclide by nuclide, the quantity and the lots' physical validity |
| Inventory.CombineNoOp | src/reactor.cc:178-190 | a buffer holding at most one lot is left exactly as it is |
| Inventory.CombineIdempotent | src/reactor.cc:73-74 | merging a merged buffer changes nothing |
| Inventory.ExtractHelium | src/reactor.cc:192-203 | an empty inventory and helium buffer are left alone; the inventory keeps its lot count |
| Inventory.ExtractHeliumMoves | src/reactor.cc:192-203 | the inventory loses exactly the front lot's helium-3 as pure helium-3, and the helium buffer gains exactly that |
| Inventory.ExtractHeliumQuantities | src/reactor.cc:192-203 | the helium buffer gains the front lot's helium-3 mass, the inventory loses it, and their total is kept |
| Inventory.ExtractHeliumStrips | src/reactor.cc:195-201 | the lot pushed back holds no helium-3 and is the only lot of a bulk inventory |
| Inventory.ExtractHeliumValid | src/reactor.cc:192-203 | extraction keeps lots physical and bulk buffers at one lot |
| Inventory.DecayFrontLaw | src/reactor.cc:169-176 | DecayInventory keeps the inventory's mass, cannot add tritium or remove helium-3, and keeps lots physical |
| Inventory.DecayLots | src/decay_storage.cc:53 | buffer-wide decay decays every lot, in place and in order |
| Inventory.DecayAllLaw | src/decay_storage.cc:53 | buffer-wide decay keeps the mass, cannot add tritium or remove helium-3, and keeps lots physical and bulk buffers at one lot |
| ReactorParams.ParseRefuelMode | src/reactor.cc:101-124 | the refuel mode is accepted exactly when it is "schedule" or "fill"; any other mode fails with an error naming it |
| ReactorParams.ParseModeName | src/reactor.h:153-161 | each refuel mode's name is recognised as that mode |
| ReactorParams.WithDefaults | src/reactor.h:153-256 | the defaults of the optional parameters: "fill", 0.1 kg every step, 3% from lithium-7, a 1000 kg blanket, 5% turnover every step |
| ReactorParams.DefaultsInRange | src/reactor.h:107-256 | the defaults lie in the declared ranges |
| ReactorParams.EnterNotify | src/reactor.cc:84-124 | entering fails exactly for an unknown refuel mode; the fuel burnt per step in moles weighs the fuel burnt per step in kg |
| ReactorParams.YearOfMonthlyUsage | src/reactor.cc:84 | twelve monthly steps burn the burn rate times the fusion power in GW |
| ReactorParams.FuelUsageMonotone | src/reactor.cc:84 | the fuel burnt per step grows with the fusion power and is zero without power |
| ReactorParams.TurnoverBounded | src/reactor.h:236-245 | in the declared ranges, the blanket turnover is between zero and 15% of the blanket size |
| Blanket.SharesFor | src/reactor.h:310 | the lithium-6 and lithium-7 shares of the bred tritium sum to one, with lithium-7's as configured |
| Blanket.DepleteMoles | src/reactor.cc:256-290 | a depletion raises tritium and helium-4 by the bred moles, lowers each lithium isotope by its share of them, and leaves no helium-3 |
| Blanket.DepleteValid | src/reactor.cc:265-290 | a depleted lot stays physical and keeps strictly positive lithium |
| Blanket.LithiumForTritium | src/reactor.cc:259-269 | with shares that sum to one, each mole of tritium bred costs exactly one mole of lithium |
| Blanket.LithiumForTritiumAsWritten | src/reactor.h:310 | with the lithium-6 share fixed at construction, the lithium consumed differs from the tritium bred whenever the lithium-7 parameter was changed later |
| Blanket.DefaultSharesAsWritten | src/reactor.h:310 | a construction-time value of zero and the default 0.03 give shares summing to 1.03, where 0.97 and 0.03 were intended |
| Blanket.DepleteBlanket | src/reactor.cc:250-301 | DepleteBlanket fails exactly on an empty blanket; it records "Blanket Depletion" exactly when both lithium isotopes would stay positive, and "Breeding Error" otherwise |
| Blanket.RefusedDepletionKeeps | src/reactor.cc:294-300 | a refused depletion keeps the blanket's contents |
| Blanket.BreedTritium | src/reactor.cc:303-314 | breeding fails exactly on an empty blanket; the bred fuel is pure tritium, and its mass is what is recorded |
| Blanket.BreedSingleLot | src/reactor.cc:303-314 | on a one-lot blanket, breeding hands out all the depleted lot's tritium and keeps the rest as the only lot |
| Blanket.BreedFromSingleLot | src/reactor.cc:303-314 | from a one-lot blanket, the fuel is the lot's tritium plus the bred moles when there is enough lithium, and only its former tritium otherwise; the blanket keeps no tritium |
| Blanket.BredFromFreshBlanket | src/reactor.cc:304-307 | from a one-lot blanket without tritium, the fuel is exactly the moles burnt times the breeding ratio |
| Blanket.BreedSplitsBlanket | src/reactor.cc:305-308 | the bred fuel and the blanket left behind together hold the depleted blanket |
| ReactorStartup.PurityByFractions | src/reactor.cc:147-160 | the purity test passes exactly when the lot has atoms and every normalised atom fraction is within 1e-7 of pure tritium's |
| ReactorStartup.PureTritiumPasses | src/reactor.cc:160 | pure tritium passes the purity test |
| ReactorStartup.HeliumFails | src/reactor.cc:160 | a lot whose helium-3 atom fraction exceeds the tolerance fails |
| ReactorStartup.Startup | src/reactor.cc:146-167 | an empty storage fails at the peek; a quantity failure reports the quantity held and the quantity required |
| ReactorStartup.StartupGate | src/reactor.cc:146-167 | start-up succeeds exactly when storage is non-empty, holds the start-up inventory, the start-up inventory covers one step's burn, and the front lot is tritium; each failure is reported by the first check that fails |
| Reactor.MakeSetup | src/reactor.cc:84-86 | the moles burnt per step weigh the mass burnt; the turnover mass is the derived one; the lithium shares sum to one (the corrected shares of the first finding) |
| Reactor.MakeSetupAsWritten | src/reactor.h:310 | the setup as the source builds it: the lithium-6 share is one minus the lithium-7 value at construction, and the shares sum to one exactly when that value equals the configured one |
| Reactor.SetupAsWrittenAgrees | src/reactor.h:310 | the setup as written is the intended setup exactly when the lithium-7 share did not change after construction |
| Reactor.Init | src/reactor.cc:88-99 | a new reactor is not operational; its six buffers are empty and hold zero quantity, its sequestered lot weighs nothing, and it has recorded nothing; the start-up and blanket-fill purchases run and the refuelling purchases do not |
| Reactor.SequesterTritium | src/reactor.cc:135-144 | sequestering fails exactly when storage holds less than the demand; it changes only storage and the sequestered lot |
| Reactor.Burnt | src/reactor.cc:320-321 | burning a quantity below the lot's mass leaves a lot lighter by exactly that quantity and keeps it physical |
| Reactor.OperateReactor | src/reactor.cc:316-334 | operating fails exactly on an empty storage, or when the front lot is burnt from an empty blanket; it never sets the operating flag and only appends to the log |
| Reactor.StopCore | src/reactor.cc:325-333 | a shut-down lowers the flag, restarts only the start-up purchase and records "Core Shut-down" |
| Reactor.OperateStep | src/reactor.cc:13-20 | a reactor that is not operational records "Shut-down" at zero power and nothing else |
| Reactor.RunOnline | src/reactor.cc:14-17 | an operating step ends with the blanket fill running and the status "Online" at the fusion power as the last record |
| Reactor.DecayStep | src/reactor.cc:22-24 | decay touches only storage, excess and the sequestered lot |
| Reactor.HeliumStep | src/reactor.cc:26-27 | helium extraction touches only storage, excess and the helium buffer |
| Reactor.MoveSurplus | src/reactor.cc:29-42 | nothing moves when storage is empty, the reactor is not operational or there is no surplus; otherwise only storage, excess and the log change |
| Reactor.MoveToExcess | src/reactor.cc:35-40 | moving the surplus fails exactly when it exceeds storage, and records the quantity moved |
| Reactor.TurnoverEvery | src/reactor.cc:44 | turnover steps are step 0 and every step a multiple of the frequency after it, and no step strictly between |
| Reactor.TurnoverDueAsWritten | src/reactor.h:247-256 | the turnover test as written divides by zero exactly when the frequency is 0, and otherwise agrees with the intended test |
| Reactor.CycleBlanket | src/reactor.cc:44-58 | turnover never fails and touches only the blanket, the blanket excess and the log; off turnover steps or with an empty blanket it changes nothing |
| Reactor.TurnOver | src/reactor.cc:45-50 | removing the turnover fails exactly when the blanket holds less, and records the quantity removed |
| Reactor.Tick | src/reactor.cc:12-59 | Tick never sets the operating flag and only appends to the log; a reactor that is not operational completes the step and records "Shut-down" first |
| Reactor.TryStartup | src/reactor.cc:62-71 | a start-up attempt moves no material |
| ReactorProperties.SequesterConserves | src/reactor.cc:135-144 | sequestering moves mass from storage into the sequestered lot without loss; an empty lot becomes the equilibrium, a non-empty one gains the tritium it lacks, and the lot ends at or above the equilibrium |
| ReactorProperties.TopUp | src/reactor.cc:140-142 | adding the tritium a lot lacks brings it to the equilibrium |
| ReactorProperties.OperateBurns | src/reactor.cc:320-323 | a front lot above one step's burn loses the burn and gains the bred tritium; the blanket is what breeding left; nothing else changes but the log |
| ReactorProperties.OperateShutsDown | src/reactor.cc:325-333 | a front lot at or below one step's burn shuts the core down and goes back untouched; the shut-down is recorded and the purchases are switched |
| ReactorProperties.HousekeepingConserves | src/reactor.cc:22-27 | decay and helium extraction keep the total of storage, excess, helium and sequestered mass, and the helium buffer gains the two front lots' helium-3 |
| ReactorProperties.DecayConserves | src/reactor.cc:22-24 | decay keeps the tritium side's mass |
| ReactorProperties.HeliumConserves | src/reactor.cc:26-27 | helium extraction keeps the tritium side's mass and moves the two front lots' helium-3 into the helium buffer |
| ReactorProperties.HeliumBalances | src/reactor.cc:26-27 | the two extractions, as quantities: the helium gain and the kept total |
| ReactorProperties.SurplusRebalances | src/reactor.cc:29-42 | with a non-negative reserve, moving the surplus loses nothing, leaves storage at or below the reserve (exactly at it when there was a surplus), and records the move |
| ReactorProperties.NegativeReserveOverdraws | src/reactor.cc:30-35 | with a negative reserve the surplus exceeds storage and the pop fails |
| ReactorProperties.TurnoverMoves | src/reactor.cc:44-58 | on a turnover step, a blanket holding the turnover gives exactly that mass to the blanket excess; one holding less only records that it was not cycled |
| ReactorProperties.TurnOverMoves | src/reactor.cc:45-47 | the turnover leaves the blanket and enters the blanket excess |
| ReactorProperties.ZeroFrequencyAdmitted | src/reactor.h:247-256 | a configuration in the declared ranges with turnover frequency 0 makes the turnover test divide by zero |
| ReactorProperties.ShutDownTick | src/reactor.cc:18-20 | a shut-down reactor with an empty blanket stays shut down through Tick, which records "Shut-down" and nothing else |
| ReactorProperties.TockGate | src/reactor.cc:61-71 | Tock keeps an operational reactor operational, and starts one that is not exactly when the start-up checks pass |
| ReactorProperties.TockStartupFailure | src/reactor.cc:67-70 | a failed start-up records the first failing check and then the unchanged inventories; the flag and the purchases stay as they were |
| ReactorProperties.MergedRecord | src/reactor.cc:73-78 | merging storage and blanket changes none of the recorded quantities |
| ReactorProperties.TockStartupSuccess | src/reactor.cc:63-66 | a successful start-up raises the flag, switches from the start-up purchase to refuelling, records "Startup" and moves no tritium |
| ReactorProperties.TockRecords | src/reactor.cc:73-78 | Tock merges storage and blanket into one lot each without changing their contents, and records the six quantities |
| DecayStorage.Init | src/decay_storage.cc:6-14 | a new store has two empty bulk buffers and no records |
| DecayStorage.Tick | src/decay_storage.cc:52-56 | Tick keeps the records and the buffers' bulk flags, and changes nothing in an empty store |
| DecayStorage.Tock | src/decay_storage.cc:59-61 | Tock appends one record of the two quantities and changes nothing else |
| DecayStorage.Deliver | src/decay_storage.cc:23 | a delivery adds its contents and mass to the tritium store only |
| DecayStorage.Sell | src/decay_storage.cc:24 | a sale fails exactly when it asks for more than the tritium store holds, and takes the quantity from the tritium store only |
| DecayStorage.TickMoves | src/decay_storage.cc:52-56 | Tick moves exactly the decayed store's helium-3 into the helium store and loses no mass |
| DecayStorage.FrontIsAll | src/decay_storage.cc:10-13 | in a bulk buffer the front lot's helium-3 is all of the buffer's helium-3 |
| DecayStorage.TickStrips | src/decay_storage.cc:38-54 | after Tick the tritium store holds no helium-3 |
| DecayStorage.TickSound | src/decay_storage.cc:52-54 | Tick keeps both stores bulk, single-lot and physical |
| DecayStorage.Apply | src/decay_storage.cc:21-61 | only an oversized sale fails; only Tick touches the helium store; only Tock touches the records |
| DecayStorage.StepKeepsHelium | src/decay_storage.cc:21-61 | one step keeps the store sound and never lowers the helium store |
| DecayStorage.HeliumNeverDrains | src/decay_storage.cc:21-61 | over any run of steps, the store stays sound and the helium store never falls |
| DecayStorage.StepWithinLimit | src/decay_storage.cc:8 | with deliveries within the tracker's room, no step takes the tritium store above the tracker's limit |
| ReactorTrades.DeliverFuel | src/reactor.cc:88-117 | tritium arrives exactly while the start-up or refuelling purchase runs and fits the tracker's room; it is pushed into storage only, and storage stays within the limit |
| ReactorTrades.DeliverBlanket | src/reactor.cc:95-99 | blanket material arrives exactly while the blanket fill runs and fits the tracker's room; it is pushed into the blanket only, which stays within the limit |
| ReactorTrades.SellExcess | src/reactor.cc:126-129 | a tritium sale fails exactly when it asks for more than the excess holds, and takes the quantity from the excess only |
| ReactorTrades.SellHelium | src/reactor.cc:130-132 | a helium-3 sale fails exactly when it asks for more than the helium buffer holds, and takes the quantity from it only |
| ReactorTrades.ShutDownBuys | src/reactor.cc:325-328 | after a shut-down, the start-up purchase accepts tritium again, up to the room left |

## Left out

- Market exchange:
  - The buy and sell policies' bidding, the (s, S) inventory levels, and the schedule mode's active, dormant and size distributions are left out. They belong to the simulator's exchange, which is not part of this model.
  - A trade is modelled as what it ends in: a push into the buffer or a pop of a quantity.
  - A delivery is assumed to arrive only while its purchase runs and within its tracker's room.
- Simulator wiring:
  - The trackers exist only as the room they leave.
  - The records' agent id, the database tables and the free-text values are left out. Each record keeps only the numbers it carries.
  - Log messages (`LOG`) are left out.
- Floating point: all quantities are exact reals. The comparisons `== 0.0` and `> 0` keep their exact meaning, with no rounding.
- ResBufs.PopQty: the host library's tolerance, which lets a request slightly above the quantity succeed, is taken as zero. A request of zero or less yields an empty lot. The buffer class is not part of this model.
- Materials.Material:
  - A lot is the mass of five named nuclides, not an arbitrary map of nuclide ids.
  - The facilities only ever handle these five.
  - Any other nuclide would be carried by no operation here.
- Materials.AtomicMass: the tabulated masses are constants. Only their positivity is used.
- Materials.DecayLaw: exponential decay is not modelled. Decay is a parameter constrained to keep the mass, never add tritium and never remove helium-3.
- ReactorStartup.NearlyPureTritium: the host's AlmostEq on normalised atom compositions is modelled nuclide by nuclide, as a deviation of at most 1e-7. A lot without atoms counts as not pure.
- Reactor.MakeSetup: builds the corrected shares of the src/reactor.h:310 finding, whose sum is one. It does not build the construction-time lithium-6 share the code uses. `Reactor.MakeSetupAsWritten` builds that share, and `Reactor.SetupAsWrittenAgrees` says when the two setups agree.
- Materials.Moles: one molar mass per nuclide serves two conversions in the source:
  - the host's mole query of the blanket lot (src/reactor.cc:257-262);
  - the reactor's conversion of moles back to mass, atomic mass times 1.66054e-27 kg times 6.022e23 (src/reactor.cc:274-277).
  The host's query is not part of this model, so the model assumes it uses the same molar masses. If it used other values, each depletion would also rescale the tritium, helium-4 and lithium already in the blanket by their ratio. `Blanket.DepleteMoles` does not show that effect.
- Blanket.DepleteLot: the mass correction followed by the transmutation is modelled by its result. That result is the lot holding the new moles at their molar masses.
- ReactorParams.InDeclaredRanges: the upper bound 1e299 of the open-ended ranges is left out.
- EnterNotify's initialisation of the five policies is reduced to the purchases' switches in `Reactor.Init`.
- The record that follows the throw of an unknown refuel mode (src/reactor.cc:121-123) is unreachable and is not modelled.
- Reactor.Tick:
  - Its contract states the state machine only.
  - The per-stage conservation and threshold properties are in `ReactorProperties`, one stage per lemma.
  - Composing them over a whole Tick is left to those lemmas.
- ReactorProperties.TockStartupFailure: the requirement is stated as the start-up check failing. By `StartupGate`, this is exactly `StartupReady` failing.
- DecayStorage declares the parameter `max_tritium_inventory` (src/decay_storage.h:69-76) but never reads it. The constructor gives the tracker the constant 1e8 kg (src/decay_storage.cc:8). The model follows the constructor, so the parameter is left out.
- The fusion_power_plant and fpp archetypes, the Python scripts and the visualisations are left out. They are not part of the two facilities.
- ReactorTrades.DeliverFuel and ReactorTrades.DeliverBlanket: which purchase is running is decided by its switch. The purchase's request size is not modelled.

## Findings

| source | as written | input that shows it | evidently intended | confidence | as-written member | corrected member |
|---|---|---|---|---|---|---|
| src/reactor.h:310 | the lithium-6 share is initialised from the lithium-7 parameter when the object is constructed, before the configuration is loaded, and is never recomputed | the lithium-7 member has no initialiser (src/reactor.h:208), so its value at construction is indeterminate; taking 0 as that value, a lithium-7 share of 0.03 loaded later gives shares 1.0 and 0.03: each mole of tritium bred consumes 1.03 moles of lithium | the lithium-6 share is one minus the configured lithium-7 share, so shares sum to one and lithium is consumed mole for mole | medium, not executed | Blanket.LithiumForTritiumAsWritten | Blanket.LithiumForTritium |
| src/reactor.h:247-256 | the turnover frequency's declared range is [0, 1000], and Tick takes the step number modulo it (src/reactor.cc:44) | turnover frequency 0, in range: every Tick computes a remainder by zero, which is undefined in C++ | a frequency of at least one step | high, not executed | ReactorProperties.ZeroFrequencyAdmitted | Reactor.TurnoverEvery |
