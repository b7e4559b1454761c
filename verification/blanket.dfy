/** Tritium breeding in the lithium blanket: DepleteBlanket turns lithium into
    tritium and helium-4 mole for mole, and BreedTritium takes the bred tritium
    out of the blanket for the fuel. */
module Blanket {
  import opened Materials
  import opened Results
  import opened ResBufs
  import opened ReactorLog

  // ---------------------------------------------------------------------------
  // Shares of the bred tritium coming from each lithium isotope.

  datatype Shares = Shares(li6: real, li7: real)

  /** The lithium-6 share as the header initialises it: from the lithium-7
      parameter's value when the object is constructed, before the
      configuration has been loaded into it. */
  function SharesAsWritten(li7AtConstruction: real, li7: real): Shares {
    Shares(1.0 - li7AtConstruction, li7)
  }

  /** The intended shares: lithium-6 contributes whatever lithium-7 does not. */
  function SharesFor(li7: real): (r: Shares)
    ensures r.li6 + r.li7 == 1.0
    ensures r.li7 == li7
  {
    Shares(1.0 - li7, li7)
  }

  // ---------------------------------------------------------------------------
  // DepleteBlanket on one lot.

  /** Lithium left of each isotope once `bred` moles of tritium are bred. */
  function RemainingLi6(m: Material, bred: real, s: Shares): real {
    Moles(m, Li6) - s.li6 * bred
  }

  function RemainingLi7(m: Material, bred: real, s: Shares): real {
    Moles(m, Li7) - s.li7 * bred
  }

  /** Breeding goes ahead only while both isotopes would keep a strictly
      positive amount. */
  predicate EnoughLithium(m: Material, bred: real, s: Shares) {
    RemainingLi6(m, bred, s) > 0.0 && RemainingLi7(m, bred, s) > 0.0
  }

  /** The depleted lot: the remaining lithium, the old tritium and helium-4 each
      raised by the bred moles, at the mass those moles weigh. Helium-3 is not
      part of the new composition. A lot without enough lithium is returned
      unchanged. */
  function DepleteLot(m: Material, bred: real, s: Shares): (r: Material)
    ensures !EnoughLithium(m, bred, s) ==> r == m
  {
    if EnoughLithium(m, bred, s) then
      FromMoles(Moles(m, Tritium) + bred, 0.0, Moles(m, He4) + bred,
                RemainingLi6(m, bred, s), RemainingLi7(m, bred, s))
    else m
  }

  /** Mole accounting of a depletion: tritium and helium-4 each rise by the bred
      moles, each lithium isotope falls by its share, helium-3 is gone. */
  lemma DepleteMoles(m: Material, bred: real, s: Shares)
    requires EnoughLithium(m, bred, s)
    ensures var r := DepleteLot(m, bred, s);
            && Moles(r, Tritium) == Moles(m, Tritium) + bred
            && Moles(r, He4) == Moles(m, He4) + bred
            && Moles(r, Li6) == Moles(m, Li6) - s.li6 * bred
            && Moles(r, Li7) == Moles(m, Li7) - s.li7 * bred
            && r.he3 == 0.0
  {
  }

  lemma MolesNonneg(m: Material, n: Nuclide)
    requires Valid(m)
    ensures Moles(m, n) >= 0.0
  {
  }

  /** A physical lot stays physical, and the new lot keeps strictly positive
      lithium. */
  lemma DepleteValid(m: Material, bred: real, s: Shares)
    requires Valid(m) && bred >= 0.0
    ensures Valid(DepleteLot(m, bred, s))
    ensures EnoughLithium(m, bred, s) ==> DepleteLot(m, bred, s).li6 > 0.0 && DepleteLot(m, bred, s).li7 > 0.0
  {
    if EnoughLithium(m, bred, s) {
      MolesNonneg(m, Tritium);
      MolesNonneg(m, He4);
      var r := DepleteLot(m, bred, s);
      assert r.t == (Moles(m, Tritium) + bred) * MolarMass(Tritium);
      assert r.he4 == (Moles(m, He4) + bred) * MolarMass(He4);
      assert r.li6 == RemainingLi6(m, bred, s) * MolarMass(Li6);
      assert r.li7 == RemainingLi7(m, bred, s) * MolarMass(Li7);
    }
  }

  /** With the intended shares, every mole of tritium bred costs exactly one
      mole of lithium. */
  lemma LithiumForTritium(m: Material, bred: real, li7: real)
    requires EnoughLithium(m, bred, SharesFor(li7))
    ensures var r := DepleteLot(m, bred, SharesFor(li7));
            (Moles(m, Li6) + Moles(m, Li7)) - (Moles(r, Li6) + Moles(r, Li7))
              == Moles(r, Tritium) - Moles(m, Tritium)
  {
    DepleteMoles(m, bred, SharesFor(li7));
  }

  /** As written, the lithium consumed differs from the tritium bred whenever
      the lithium-7 parameter changed after construction: one mole bred costs
      `1 - li7AtConstruction + li7` moles of lithium. */
  lemma LithiumForTritiumAsWritten(m: Material, bred: real, li7AtConstruction: real, li7: real)
    requires EnoughLithium(m, bred, SharesAsWritten(li7AtConstruction, li7))
    requires bred > 0.0 && li7AtConstruction != li7
    ensures var r := DepleteLot(m, bred, SharesAsWritten(li7AtConstruction, li7));
            (Moles(m, Li6) + Moles(m, Li7)) - (Moles(r, Li6) + Moles(r, Li7))
              != Moles(r, Tritium) - Moles(m, Tritium)
  {
    var s := SharesAsWritten(li7AtConstruction, li7);
    DepleteMoles(m, bred, s);
    assert (s.li6 + s.li7) * bred != bred by {
      assert s.li6 + s.li7 != 1.0;
    }
  }

  /** The configured default of 0.03 against a construction-time value of 0:
      the shares sum to 1.03. */
  lemma DefaultSharesAsWritten()
    ensures SharesAsWritten(0.0, 0.03).li6 + SharesAsWritten(0.0, 0.03).li7 == 1.03
    ensures SharesFor(0.03).li6 == 0.97
  {
  }

  // ---------------------------------------------------------------------------
  // DepleteBlanket and BreedTritium on the blanket buffer.

  /** The front blanket lot is popped, depleted (or refused) and pushed back;
      an empty blanket makes the pop throw. */
  function DepleteBlanket(blanket: ResBuf, bred: real, s: Shares): (r: Result<(ResBuf, Event), Fault>)
    ensures r.Err? <==> IsEmpty(blanket)
    ensures r.Ok? ==> r.value.0.bulk == blanket.bulk && !IsEmpty(r.value.0)
    ensures r.Ok? ==> (r.value.1 == BlanketDepletion <==> EnoughLithium(blanket.lots[0], bred, s))
    ensures r.Ok? ==> (r.value.1 == BreedingError <==> !EnoughLithium(blanket.lots[0], bred, s))
  {
    var p :- Pop(blanket);
    var m := p.0;
    Ok((Push(p.1, DepleteLot(m, bred, s)),
        if EnoughLithium(m, bred, s) then BlanketDepletion else BreedingError))
  }

  /** A refused depletion leaves the blanket's contents as they were. */
  lemma RefusedDepletionKeeps(blanket: ResBuf, bred: real, s: Shares)
    requires !IsEmpty(blanket) && !EnoughLithium(blanket.lots[0], bred, s)
    ensures var r := DepleteBlanket(blanket, bred, s);
            && r.Ok? && r.value.1 == BreedingError
            && Content(r.value.0.lots) == Content(blanket.lots)
  {
    var rest := blanket.lots[1..];
    AddComm(blanket.lots[0], Content(rest));
  }

  /** Moles of tritium bred in one step: the moles burnt times the breeding
      ratio. */
  function BredMoles(usageMoles: real, tbr: real): real {
    usageMoles * tbr
  }

  datatype Bred = Bred(fuel: Material, blanket: ResBuf, events: seq<Event>)

  /** DepleteBlanket with the moles burnt times the breeding ratio, then the
      front blanket lot is popped, its tritium extracted as a pure lot and the
      rest pushed back. */
  function BreedTritium(blanket: ResBuf, usageMoles: real, tbr: real, s: Shares): (r: Result<Bred, Fault>)
    ensures r.Err? <==> IsEmpty(blanket)
    ensures r.Ok? ==> r.value.fuel == Pure(Tritium, r.value.fuel.t)
    ensures r.Ok? ==> r.value.blanket.bulk == blanket.bulk
    ensures r.Ok? ==> |r.value.events| == 2 && r.value.events[1] == BredTritium(Mass(r.value.fuel))
  {
    var d :- DepleteBlanket(blanket, BredMoles(usageMoles, tbr), s);
    var p := Pop(d.0).value;
    var m := p.0;
    Ok(Bred(Pure(Tritium, m.t), Push(p.1, Strip(m, Tritium)), [d.1, BredTritium(m.t)]))
  }

  /** On a one-lot blanket, BreedTritium depletes that lot, hands out all its
      tritium and keeps the rest as the only lot. */
  lemma BreedSingleLot(blanket: ResBuf, usageMoles: real, tbr: real, s: Shares)
    requires |blanket.lots| == 1
    ensures var r := BreedTritium(blanket, usageMoles, tbr, s);
            var d := DepleteLot(blanket.lots[0], BredMoles(usageMoles, tbr), s);
            && r.Ok?
            && r.value.fuel == Pure(Tritium, d.t)
            && r.value.blanket.lots == [Strip(d, Tritium)]
  {
    var m := blanket.lots[0];
    var d := DepleteLot(m, BredMoles(usageMoles, tbr), s);
    assert blanket.lots[1..] == [];
    var d0 := DepleteBlanket(blanket, BredMoles(usageMoles, tbr), s).value.0;
    assert d0.lots == [d];
    var p := Pop(d0).value;
    assert p.0 == d && p.1.lots == [];
  }

  /** What a one-lot blanket (the blanket is merged into one lot every Tock)
      yields: with enough lithium, all its tritium after breeding, that is its
      earlier tritium plus the bred moles; without, only its earlier tritium. */
  lemma BreedFromSingleLot(blanket: ResBuf, usageMoles: real, tbr: real, s: Shares)
    requires |blanket.lots| == 1
    ensures var r := BreedTritium(blanket, usageMoles, tbr, s);
            var m := blanket.lots[0];
            && r.Ok?
            && (EnoughLithium(m, BredMoles(usageMoles, tbr), s) ==>
                 Moles(r.value.fuel, Tritium) == Moles(m, Tritium) + BredMoles(usageMoles, tbr))
            && (!EnoughLithium(m, BredMoles(usageMoles, tbr), s) ==> r.value.fuel.t == m.t)
            && |r.value.blanket.lots| == 1
            && r.value.blanket.lots[0].t == 0.0
  {
    BreedSingleLot(blanket, usageMoles, tbr, s);
    var bred := BredMoles(usageMoles, tbr);
    var m := blanket.lots[0];
    var d := DepleteLot(m, bred, s);
    var r := BreedTritium(blanket, usageMoles, tbr, s).value;
    if EnoughLithium(m, bred, s) {
      DepleteMoles(m, bred, s);
      SameMoles(r.fuel, d, Tritium);
    }
  }

  lemma SameMoles(a: Material, b: Material, n: Nuclide)
    requires MassOf(a, n) == MassOf(b, n)
    ensures Moles(a, n) == Moles(b, n)
  {
  }

  /** From a one-lot blanket without tritium and with enough lithium, the bred
      fuel is exactly the moles burnt times the breeding ratio, as pure
      tritium. */
  lemma BredFromFreshBlanket(blanket: ResBuf, usageMoles: real, tbr: real, s: Shares)
    requires |blanket.lots| == 1 && blanket.lots[0].t == 0.0
    requires EnoughLithium(blanket.lots[0], BredMoles(usageMoles, tbr), s)
    ensures var r := BreedTritium(blanket, usageMoles, tbr, s);
            && r.Ok?
            && Moles(r.value.fuel, Tritium) == BredMoles(usageMoles, tbr)
            && Mass(r.value.fuel) == MassOf(r.value.fuel, Tritium)
  {
    BreedFromSingleLot(blanket, usageMoles, tbr, s);
    MolesWeigh(blanket.lots[0], Tritium);
    var f := BreedTritium(blanket, usageMoles, tbr, s).value.fuel;
    MassPure(Tritium, f.t);
  }

  /** The bred fuel and the blanket left behind hold together what the blanket
      held after depletion. */
  lemma BreedSplitsBlanket(blanket: ResBuf, usageMoles: real, tbr: real, s: Shares)
    requires !IsEmpty(blanket)
    ensures var d := DepleteBlanket(blanket, BredMoles(usageMoles, tbr), s);
            var r := BreedTritium(blanket, usageMoles, tbr, s);
            && d.Ok? && r.Ok?
            && Add(Content(r.value.blanket.lots), r.value.fuel) == Content(d.value.0.lots)
  {
    var d := DepleteBlanket(blanket, BredMoles(usageMoles, tbr), s).value.0;
    var m := d.lots[0];
    var rest := ResBuf(d.lots[1..], d.bulk);
    ExtractWhole(m, Tritium);
    calc {
      Add(Content(Push(rest, Strip(m, Tritium)).lots), Pure(Tritium, m.t));
      Add(Add(Content(rest.lots), Strip(m, Tritium)), Pure(Tritium, m.t));
      { AddAssoc(Content(rest.lots), Strip(m, Tritium), Pure(Tritium, m.t)); }
      Add(Content(rest.lots), m);
      { AddComm(Content(rest.lots), m); }
      Content(d.lots);
    }
  }
}
