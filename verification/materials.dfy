/** A material lot as the facilities see it: the mass in kg of each of the five
    nuclides they handle, and the arithmetic on lots they rely on (absorb,
    split, extract one nuclide, total mass, moles, atom fractions). */
module Materials {

  datatype Nuclide = Tritium | He3 | He4 | Li6 | Li7

  /** Atomic number and mass number of each nuclide. */
  function Protons(n: Nuclide): nat {
    match n
    case Tritium => 1
    case He3 => 2
    case He4 => 2
    case Li6 => 3
    case Li7 => 3
  }

  function MassNumber(n: Nuclide): nat {
    match n
    case Tritium => 3
    case He3 => 3
    case He4 => 4
    case Li6 => 6
    case Li7 => 7
  }

  /** The nuclide ids the reactor uses, in the ZZAAAMMMM form of the
      nuclear-data library (ground states, so the MMMM digits are zero). */
  function Id(n: Nuclide): (id: int)
    ensures id == Protons(n) * 10000000 + MassNumber(n) * 10000
  {
    match n
    case Tritium => 10030000
    case He3 => 20030000
    case He4 => 20040000
    case Li6 => 30060000
    case Li7 => 30070000
  }

  /** The five ids are five different numbers: an id names one nuclide. */
  lemma IdsDistinct(a: Nuclide, b: Nuclide)
    ensures Id(a) == Id(b) <==> a == b
  {
    if Id(a) == Id(b) {
      assert Protons(a) == Protons(b) && MassNumber(a) == MassNumber(b) by {
        var za, zb, aa, ab := Protons(a), Protons(b), MassNumber(a), MassNumber(b);
        assert za * 10000000 + aa * 10000 == zb * 10000000 + ab * 10000;
        assert aa < 1000 && ab < 1000;
      }
    }
  }

  /** Kilograms of tritium, helium-3, helium-4, lithium-6 and lithium-7. */
  datatype Material = Material(t: real, he3: real, he4: real, li6: real, li7: real)

  const Nothing := Material(0.0, 0.0, 0.0, 0.0, 0.0)

  function MassOf(m: Material, n: Nuclide): real {
    match n
    case Tritium => m.t
    case He3 => m.he3
    case He4 => m.he4
    case Li6 => m.li6
    case Li7 => m.li7
  }

  /** Two lots are equal when they hold the same mass of every nuclide. */
  lemma SameMasses(a: Material, b: Material)
    requires forall n :: MassOf(a, n) == MassOf(b, n)
    ensures a == b
  {
    assert MassOf(a, Tritium) == MassOf(b, Tritium);
    assert MassOf(a, He3) == MassOf(b, He3);
    assert MassOf(a, He4) == MassOf(b, He4);
    assert MassOf(a, Li6) == MassOf(b, Li6);
    assert MassOf(a, Li7) == MassOf(b, Li7);
  }

  /** A physical lot: no negative masses. */
  predicate Valid(m: Material) {
    m.t >= 0.0 && m.he3 >= 0.0 && m.he4 >= 0.0 && m.li6 >= 0.0 && m.li7 >= 0.0
  }

  /** Total mass of a lot (the host's quantity()). */
  function Mass(m: Material): real {
    m.t + m.he3 + m.he4 + m.li6 + m.li7
  }

  lemma MassNonneg(m: Material)
    requires Valid(m)
    ensures 0.0 <= Mass(m)
    ensures forall n :: 0.0 <= MassOf(m, n) <= Mass(m)
  {
  }

  // ---------------------------------------------------------------------------
  // Absorb, split, extract.

  /** `a` absorbs `b`: masses add nuclide by nuclide. */
  function Add(a: Material, b: Material): Material {
    Material(a.t + b.t, a.he3 + b.he3, a.he4 + b.he4, a.li6 + b.li6, a.li7 + b.li7)
  }

  /** Absorbing adds every nuclide's mass, hence the total, and keeps lots
      physical. */
  lemma AddMasses(a: Material, b: Material)
    ensures forall n :: MassOf(Add(a, b), n) == MassOf(a, n) + MassOf(b, n)
    ensures Mass(Add(a, b)) == Mass(a) + Mass(b)
    ensures Valid(a) && Valid(b) ==> Valid(Add(a, b))
  {
  }

  lemma AddNothing(a: Material)
    ensures Add(a, Nothing) == a && Add(Nothing, a) == a
  {
  }

  lemma AddComm(a: Material, b: Material)
    ensures Add(a, b) == Add(b, a)
  {
  }

  lemma AddAssoc(a: Material, b: Material, c: Material)
    ensures Add(Add(a, b), c) == Add(a, Add(b, c))
  {
  }

  /** The same composition with every mass multiplied by `f` (the host's
      ExtractQty on a lot keeps its composition). */
  function Scale(m: Material, f: real): Material {
    Material(m.t * f, m.he3 * f, m.he4 * f, m.li6 * f, m.li7 * f)
  }

  lemma MassScale(m: Material, f: real)
    ensures forall n :: MassOf(Scale(m, f), n) == MassOf(m, n) * f
    ensures Valid(m) && f >= 0.0 ==> Valid(Scale(m, f))
    ensures Mass(Scale(m, f)) == Mass(m) * f
  {
    calc {
      Mass(Scale(m, f));
      m.t * f + m.he3 * f + m.he4 * f + m.li6 * f + m.li7 * f;
      (m.t + m.he3 + m.he4 + m.li6 + m.li7) * f;
    }
  }

  /** A scaled lot keeps the composition: each nuclide's share of the mass is
      unchanged. */
  lemma ScaleComposition(m: Material, f: real, x: real)
    requires f * Mass(m) == x
    ensures forall n :: MassOf(Scale(m, f), n) * Mass(m) == MassOf(m, n) * x
  {
    forall n ensures MassOf(Scale(m, f), n) * Mass(m) == MassOf(m, n) * x {
      var y, q := MassOf(m, n), Mass(m);
      assert MassOf(Scale(m, f), n) == y * f by { MassScale(m, f); }
      assert y * f * q == y * (f * q);
    }
  }

  /** Splitting a lot into the fractions `f` and `1 - f` loses nothing. */
  lemma SplitWhole(m: Material, f: real)
    ensures Add(Scale(m, f), Scale(m, 1.0 - f)) == m
  {
    assert m.t * f + m.t * (1.0 - f) == m.t;
    assert m.he3 * f + m.he3 * (1.0 - f) == m.he3;
    assert m.he4 * f + m.he4 * (1.0 - f) == m.he4;
    assert m.li6 * f + m.li6 * (1.0 - f) == m.li6;
    assert m.li7 * f + m.li7 * (1.0 - f) == m.li7;
  }

  /** The share of a lot that a request below its mass asks for. */
  lemma ShareBelowOne(x: real, q: real)
    requires 0.0 < x < q
    ensures 0.0 < x / q < 1.0 && x / q * q == x
  {
    var f := x / q;
    assert f * q == x;
    if f >= 1.0 {
      assert false;
    }
  }

  /** A lot holding `x` kg of the one nuclide `n`. */
  function Pure(n: Nuclide, x: real): (r: Material)
    ensures MassOf(r, n) == x
    ensures forall j :: j != n ==> MassOf(r, j) == 0.0
  {
    match n
    case Tritium => Material(x, 0.0, 0.0, 0.0, 0.0)
    case He3 => Material(0.0, x, 0.0, 0.0, 0.0)
    case He4 => Material(0.0, 0.0, x, 0.0, 0.0)
    case Li6 => Material(0.0, 0.0, 0.0, x, 0.0)
    case Li7 => Material(0.0, 0.0, 0.0, 0.0, x)
  }

  lemma MassPure(n: Nuclide, x: real)
    ensures Mass(Pure(n, x)) == x
  {
  }

  /** The lot with nuclide `n` taken out; everything else stays. */
  function Strip(m: Material, n: Nuclide): (r: Material)
    ensures MassOf(r, n) == 0.0
    ensures forall j :: j != n ==> MassOf(r, j) == MassOf(m, j)
    ensures Valid(m) ==> Valid(r)
  {
    match n
    case Tritium => m.(t := 0.0)
    case He3 => m.(he3 := 0.0)
    case He4 => m.(he4 := 0.0)
    case Li6 => m.(li6 := 0.0)
    case Li7 => m.(li7 := 0.0)
  }

  /** Extracting a whole nuclide (the host's ExtractComp with that nuclide's
      mass and a single-nuclide composition) splits the lot in two parts that
      together are the lot. */
  lemma ExtractWhole(m: Material, n: Nuclide)
    ensures Add(Strip(m, n), Pure(n, MassOf(m, n))) == m
    ensures Mass(Strip(m, n)) == Mass(m) - MassOf(m, n)
  {
    match n
    case Tritium =>
    case He3 =>
    case He4 =>
    case Li6 =>
    case Li7 =>
  }

  // ---------------------------------------------------------------------------
  // Moles and atom fractions.

  /** Atomic mass in atomic mass units, as tabulated by the nuclear-data
      library. Only positivity is used by the proofs. */
  function AtomicMass(n: Nuclide): (r: real)
    ensures r > 0.0
  {
    match n
    case Tritium => 3.01604928
    case He3 => 3.01602932
    case He4 => 4.00260325
    case Li6 => 6.01512289
    case Li7 => 7.01600344
  }

  const AmuToKg: real := 1.66054e-27
  const Avogadro: real := 6.022e23

  /** Molar mass in kg/mol: the reactor's per-atom mass in kg times its
      Avogadro number, so that atoms / Avogadro is moles. */
  function MolarMass(n: Nuclide): (r: real)
    ensures r > 0.0
  {
    AtomicMass(n) * AmuToKg * Avogadro
  }

  function Moles(m: Material, n: Nuclide): real {
    MassOf(m, n) / MolarMass(n)
  }

  /** Moles weigh their molar mass: mass and moles determine each other. */
  lemma MolesWeigh(m: Material, n: Nuclide)
    ensures MassOf(m, n) == Moles(m, n) * MolarMass(n)
    ensures MassOf(m, n) == 0.0 <==> Moles(m, n) == 0.0
  {
    var x, q := MassOf(m, n), MolarMass(n);
    assert x / q * q == x;
  }

  /** The lot holding the given moles of each nuclide. */
  function FromMoles(t: real, he3: real, he4: real, li6: real, li7: real): (r: Material)
    ensures Moles(r, Tritium) == t && Moles(r, He3) == he3 && Moles(r, He4) == he4
    ensures Moles(r, Li6) == li6 && Moles(r, Li7) == li7
  {
    Material(t * MolarMass(Tritium), he3 * MolarMass(He3), he4 * MolarMass(He4),
             li6 * MolarMass(Li6), li7 * MolarMass(Li7))
  }

  function TotalMoles(m: Material): real {
    Moles(m, Tritium) + Moles(m, He3) + Moles(m, He4) + Moles(m, Li6) + Moles(m, Li7)
  }

  /** Atom fraction of `n`, the composition normalised to one. A lot without
      atoms has no fractions: every one is zero. */
  function AtomFraction(m: Material, n: Nuclide): real {
    if TotalMoles(m) == 0.0 then 0.0 else Moles(m, n) / TotalMoles(m)
  }

  // ---------------------------------------------------------------------------
  // Radioactive decay, left abstract.

  /** A decay law maps a lot and the current time step to the decayed lot. */
  type DecayFn = (Material, nat) -> Material

  /** What the model assumes of decay: the lot keeps its mass, tritium can only
      be lost and helium-3 only gained, and masses stay non-negative. */
  ghost predicate DecayLaw(decay: DecayFn) {
    forall m: Material, t: nat ::
      && Mass(decay(m, t)) == Mass(m)
      && decay(m, t).t <= m.t
      && decay(m, t).he3 >= m.he3
      && (Valid(m) ==> Valid(decay(m, t)))
  }
}
