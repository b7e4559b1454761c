/** The DecayStorage facility: a bulk tritium store that decays its contents
    every step and strips the helium-3 the decay produced into a bulk helium
    store that nothing ever drains. The buy policy delivers into the tritium
    store and the sell policy takes from it; both are modelled as the buffer
    operations they end in. */
module DecayStorage {
  import opened Materials
  import opened Results
  import opened ResBufs
  import opened Inventory

  /** Inventory limit of the fuel tracker the buy policy consults (kg). */
  const TrackerLimit: real := 100000000.0

  /** A StorageInventories record. */
  datatype Inventories = Inventories(time: int, tritium: real, helium: real)

  datatype Store = Store(tritium: ResBuf, helium: ResBuf, log: seq<Inventories>)

  /** Both buffers bulk, so each holds at most one lot, and every lot
      physical. */
  predicate Sound(st: Store) {
    && st.tritium.bulk && st.helium.bulk
    && WellFormed(st.tritium) && WellFormed(st.helium)
    && AllValid(st.tritium.lots) && AllValid(st.helium.lots)
  }

  /** A new facility: two empty bulk buffers and no records. */
  function Init(): (st: Store)
    ensures Sound(st) && st.log == []
    ensures Quantity(st.tritium) == 0.0 && Quantity(st.helium) == 0.0
  {
    Store(NewBuf(true), NewBuf(true), [])
  }

  // ---------------------------------------------------------------------------
  // Tick and Tock.

  /** Every lot of the tritium store is decayed to the current time, then
      the front lot's helium-3 is extracted into the helium store. */
  function Tick(st: Store, decay: DecayFn, time: nat): (r: Store)
    ensures r.log == st.log
    ensures IsEmpty(st.tritium) ==> r == st
    ensures r.tritium.bulk == st.tritium.bulk && r.helium.bulk == st.helium.bulk
  {
    var x := ExtractHelium(DecayAll(st.tritium, decay, time), st.helium);
    st.(tritium := x.0, helium := x.1)
  }

  /** Tock records the two quantities and changes nothing else. */
  function Tock(st: Store, time: nat): (r: Store)
    ensures r.tritium == st.tritium && r.helium == st.helium
    ensures |r.log| == |st.log| + 1 && r.log[..|st.log|] == st.log
    ensures r.log[|st.log|] == Inventories(time, Quantity(st.tritium), Quantity(st.helium))
  {
    st.(log := st.log + [Inventories(time, Quantity(st.tritium), Quantity(st.helium))])
  }

  // ---------------------------------------------------------------------------
  // Trades.

  /** What the buy policy may still request: the tracker's room. */
  function Room(st: Store): real {
    Max0(TrackerLimit - Quantity(st.tritium))
  }

  /** A delivery accepted by the buy policy is pushed into the tritium store;
      being bulk, the store absorbs it into its one lot. */
  function Deliver(st: Store, m: Material): (r: Store)
    ensures r.helium == st.helium && r.log == st.log
    ensures Quantity(r.tritium) == Quantity(st.tritium) + Mass(m)
    ensures Content(r.tritium.lots) == Add(Content(st.tritium.lots), m)
  {
    st.(tritium := Push(st.tritium, m))
  }

  /** A sale takes the traded quantity from the tritium store only; more than
      it holds is refused. */
  function Sell(st: Store, qty: real): (r: Result<(Material, Store), Fault>)
    ensures r.Err? <==> qty > Quantity(st.tritium)
    ensures r.Ok? ==> r.value.1.helium == st.helium && r.value.1.log == st.log
    ensures r.Ok? ==> Mass(r.value.0) == Max0(qty)
    ensures r.Ok? ==> Quantity(r.value.1.tritium) == Quantity(st.tritium) - Max0(qty)
  {
    var t :- PopQty(st.tritium, qty);
    Ok((t.0, st.(tritium := t.1)))
  }

  // ---------------------------------------------------------------------------
  // What Tick guarantees.

  /** Tick moves exactly the decayed store's helium-3 into the helium store
      and loses no mass: what decay kept, extraction splits between the two
      stores. */
  lemma TickMoves(st: Store, decay: DecayFn, time: nat)
    requires DecayLaw(decay) && Sound(st)
    ensures var d := DecayAll(st.tritium, decay, time);
            var r := Tick(st, decay, time);
            && Quantity(r.helium) == Quantity(st.helium) + Content(d.lots).he3
            && Quantity(r.tritium) + Quantity(r.helium) == Quantity(st.tritium) + Quantity(st.helium)
  {
    var d := DecayAll(st.tritium, decay, time);
    DecayAllLaw(st.tritium, decay, time);
    ExtractHeliumQuantities(d, st.helium);
    FrontIsAll(d);
  }

  /** In a bulk buffer the front lot's helium-3 is all the buffer's helium-3. */
  lemma FrontIsAll(b: ResBuf)
    requires WellFormed(b) && b.bulk
    ensures FrontHe3(b) == Content(b.lots).he3
  {
    if !IsEmpty(b) {
      ContentSingle(b.lots[0]);
      assert b.lots == [b.lots[0]];
    }
  }

  /** After Tick the tritium store holds no helium-3: decay is followed by
      the extraction of the one lot's helium-3. */
  lemma TickStrips(st: Store, decay: DecayFn, time: nat)
    requires DecayLaw(decay) && Sound(st)
    ensures Content(Tick(st, decay, time).tritium.lots).he3 == 0.0
  {
    var d := DecayAll(st.tritium, decay, time);
    DecayAllLaw(st.tritium, decay, time);
    var r := Tick(st, decay, time).tritium;
    if !IsEmpty(d) {
      ExtractHeliumStrips(d, st.helium);
      ContentSingle(r.lots[0]);
      assert r.lots == [r.lots[0]];
    }
  }

  /** Tick keeps the store sound. */
  lemma TickSound(st: Store, decay: DecayFn, time: nat)
    requires DecayLaw(decay) && Sound(st)
    ensures Sound(Tick(st, decay, time))
  {
    var d := DecayAll(st.tritium, decay, time);
    DecayAllLaw(st.tritium, decay, time);
    ExtractHeliumValid(d, st.helium);
  }

  // ---------------------------------------------------------------------------
  // The helium store never drains.

  /** One step of the facility's life: a Tick, a Tock, a delivery or a sale. */
  datatype Step =
    | TickAt(time: nat)
    | TockAt(time: nat)
    | Delivery(m: Material)
    | Sale(qty: real)

  /** A step the facility can take: deliveries are physical material. */
  predicate Physical(step: Step) {
    step.Delivery? ==> Valid(step.m)
  }

  /** Only Tick touches the helium store, only Tock the records, and only a
      sale of more than the tritium store holds fails. */
  function Apply(st: Store, step: Step, decay: DecayFn): (r: Result<Store, Fault>)
    ensures r.Err? <==> step.Sale? && step.qty > Quantity(st.tritium)
    ensures r.Ok? && !step.TickAt? ==> r.value.helium == st.helium
    ensures r.Ok? && !step.TockAt? ==> r.value.log == st.log
  {
    match step
    case TickAt(t) => Ok(Tick(st, decay, t))
    case TockAt(t) => Ok(Tock(st, t))
    case Delivery(m) => Ok(Deliver(st, m))
    case Sale(q) =>
      var s :- Sell(st, q);
      Ok(s.1)
  }

  /** The steps applied in order; the first failing sale ends the run. */
  function Run(st: Store, steps: seq<Step>, decay: DecayFn): (r: Result<Store, Fault>)
    decreases |steps|
  {
    if |steps| == 0 then Ok(st)
    else
      var s :- Apply(st, steps[0], decay);
      Run(s, steps[1..], decay)
  }

  /** One step keeps the store sound and never lowers the helium store. */
  lemma StepKeepsHelium(st: Store, step: Step, decay: DecayFn)
    requires DecayLaw(decay) && Sound(st) && Physical(step)
    ensures var r := Apply(st, step, decay);
            r.Ok? ==> Sound(r.value) && Quantity(r.value.helium) >= Quantity(st.helium)
  {
    match step
    case TickAt(t) =>
      TickSound(st, decay, t);
      TickMoves(st, decay, t);
      var d := DecayAll(st.tritium, decay, t);
      DecayAllLaw(st.tritium, decay, t);
      ContentValid(d.lots);
    case TockAt(t) =>
    case Delivery(m) =>
    case Sale(q) =>
      if q <= Quantity(st.tritium) {
        var t := PopQty(st.tritium, q).value;
      }
  }

  /** Nothing drains the helium store: over any run of physical steps its
      quantity never falls, and the store stays sound. */
  lemma {:induction false} HeliumNeverDrains(st: Store, steps: seq<Step>, decay: DecayFn)
    requires DecayLaw(decay) && Sound(st)
    requires forall i :: 0 <= i < |steps| ==> Physical(steps[i])
    ensures var r := Run(st, steps, decay);
            r.Ok? ==> Sound(r.value) && Quantity(r.value.helium) >= Quantity(st.helium)
    decreases |steps|
  {
    if |steps| > 0 {
      StepKeepsHelium(st, steps[0], decay);
      var s := Apply(st, steps[0], decay);
      if s.Ok? {
        HeliumNeverDrains(s.value, steps[1..], decay);
      }
    }
  }

  // ---------------------------------------------------------------------------
  // The tracker's limit.

  /** With deliveries no larger than the tracker's room, no step takes the
      tritium store above the tracker's limit. */
  lemma StepWithinLimit(st: Store, step: Step, decay: DecayFn)
    requires DecayLaw(decay) && Sound(st) && Physical(step)
    requires Quantity(st.tritium) <= TrackerLimit
    requires step.Delivery? ==> Mass(step.m) <= Room(st)
    ensures var r := Apply(st, step, decay);
            r.Ok? ==> Quantity(r.value.tritium) <= TrackerLimit
  {
    match step
    case TickAt(t) =>
      TickMoves(st, decay, t);
      var d := DecayAll(st.tritium, decay, t);
      DecayAllLaw(st.tritium, decay, t);
      ContentValid(d.lots);
    case TockAt(t) =>
    case Delivery(m) =>
    case Sale(q) =>
      QuantityNonneg(st.tritium);
  }
}
