/** The host's resource buffer (ResBuf) as the facilities use it: an ordered
    sequence of lots, popped from the front and pushed at the back. A bulk
    buffer keeps at most one lot: a pushed lot is absorbed into it. */
module ResBufs {
  import opened Materials
  import opened Results

  datatype ResBuf = ResBuf(lots: seq<Material>, bulk: bool)

  /** The host's errors on buffer misuse. */
  datatype Fault =
    | PopFromEmpty
    | PeekAtEmpty
    | Overdraw(requested: real, held: real)

  function Max0(x: real): real {
    if x > 0.0 then x else 0.0
  }

  function NewBuf(bulk: bool): ResBuf {
    ResBuf([], bulk)
  }

  predicate IsEmpty(b: ResBuf) {
    |b.lots| == 0
  }

  /** A bulk buffer never holds more than one lot. */
  predicate WellFormed(b: ResBuf) {
    b.bulk ==> |b.lots| <= 1
  }

  /** Every lot is physical. */
  predicate AllValid(lots: seq<Material>)
    decreases |lots|
  {
    |lots| == 0 || (Valid(lots[0]) && AllValid(lots[1..]))
  }

  // ---------------------------------------------------------------------------
  // Contents and quantity.

  /** Everything the lots hold together, nuclide by nuclide. */
  function Content(lots: seq<Material>): Material
    decreases |lots|
  {
    if |lots| == 0 then Nothing else Add(lots[0], Content(lots[1..]))
  }

  /** The host's quantity(): total mass held. */
  function Quantity(b: ResBuf): real {
    Mass(Content(b.lots))
  }

  lemma {:induction false} ContentAppend(lots: seq<Material>, m: Material)
    ensures Content(lots + [m]) == Add(Content(lots), m)
    decreases |lots|
  {
    if |lots| == 0 {
      assert (lots + [m])[1..] == [];
      AddNothing(m);
    } else {
      assert (lots + [m])[1..] == lots[1..] + [m];
      ContentAppend(lots[1..], m);
      AddAssoc(lots[0], Content(lots[1..]), m);
    }
  }

  lemma {:induction false} ContentValid(lots: seq<Material>)
    requires AllValid(lots)
    ensures Valid(Content(lots))
    decreases |lots|
  {
    if |lots| > 0 {
      assert AllValid(lots[1..]);
      ContentValid(lots[1..]);
    }
  }

  lemma QuantityNonneg(b: ResBuf)
    requires AllValid(b.lots)
    ensures Quantity(b) >= 0.0
  {
    ContentValid(b.lots);
    MassNonneg(Content(b.lots));
  }

  // ---------------------------------------------------------------------------
  // Push, Pop, Peek.

  /** Push(m): the lot joins at the back, or is absorbed into the one lot of a
      non-empty bulk buffer. */
  function Push(b: ResBuf, m: Material): (r: ResBuf)
    ensures r.bulk == b.bulk && |r.lots| > 0
    ensures Content(r.lots) == Add(Content(b.lots), m)
    ensures Quantity(r) == Quantity(b) + Mass(m)
    ensures !b.bulk || IsEmpty(b) ==> r.lots == b.lots + [m]
    ensures WellFormed(b) ==> WellFormed(r)
    ensures AllValid(b.lots) && Valid(m) ==> AllValid(r.lots)
  {
    ResBuf(PushLots(b.lots, b.bulk, m), b.bulk)
  }

  function PushLots(lots: seq<Material>, bulk: bool, m: Material): (r: seq<Material>)
    ensures |r| > 0
    ensures Content(r) == Add(Content(lots), m)
    ensures Mass(Content(r)) == Mass(Content(lots)) + Mass(m)
    ensures !bulk || |lots| == 0 ==> r == lots + [m]
    ensures bulk && |lots| > 0 ==> |r| == |lots|
    ensures AllValid(lots) && Valid(m) ==> AllValid(r)
  {
    if bulk && |lots| > 0 then AbsorbFront(lots, m) else Append(lots, m)
  }

  function AbsorbFront(lots: seq<Material>, m: Material): (r: seq<Material>)
    requires |lots| > 0
    ensures |r| == |lots|
    ensures Content(r) == Add(Content(lots), m)
    ensures Mass(Content(r)) == Mass(Content(lots)) + Mass(m)
    ensures AllValid(lots) && Valid(m) ==> AllValid(r)
  {
    var r := [Add(lots[0], m)] + lots[1..];
    assert r[1..] == lots[1..];
    AddAssoc(lots[0], m, Content(lots[1..]));
    AddComm(m, Content(lots[1..]));
    AddAssoc(lots[0], Content(lots[1..]), m);
    AddMasses(Content(lots), m);
    AddMasses(lots[0], m);
    r
  }

  function Append(lots: seq<Material>, m: Material): (r: seq<Material>)
    ensures r == lots + [m]
    ensures Content(r) == Add(Content(lots), m)
    ensures Mass(Content(r)) == Mass(Content(lots)) + Mass(m)
    ensures AllValid(lots) && Valid(m) ==> AllValid(r)
  {
    ContentAppend(lots, m);
    AddMasses(Content(lots), m);
    AllValidAppend(lots, m);
    lots + [m]
  }

  lemma {:induction false} AllValidAppend(lots: seq<Material>, m: Material)
    ensures AllValid(lots + [m]) <==> AllValid(lots) && Valid(m)
    decreases |lots|
  {
    if |lots| == 0 {
      assert (lots + [m])[1..] == [];
    } else {
      assert (lots + [m])[1..] == lots[1..] + [m];
      AllValidAppend(lots[1..], m);
    }
  }

  /** Pop() removes the foremost lot; the host refuses it on an empty buffer. */
  function Pop(b: ResBuf): (r: Result<(Material, ResBuf), Fault>)
    ensures r.Err? <==> IsEmpty(b)
    ensures r.Err? ==> r.error == PopFromEmpty
    ensures r.Ok? ==> r.value.0 == b.lots[0] && r.value.1 == b.(lots := b.lots[1..])
    ensures r.Ok? ==> Add(r.value.0, Content(r.value.1.lots)) == Content(b.lots)
    ensures r.Ok? ==> Quantity(r.value.1) == Quantity(b) - Mass(r.value.0)
  {
    if IsEmpty(b) then Err(PopFromEmpty)
    else Ok((b.lots[0], b.(lots := b.lots[1..])))
  }

  /** Peek() reads the foremost lot without removing it. */
  function Peek(b: ResBuf): (r: Result<Material, Fault>)
    ensures r.Err? <==> IsEmpty(b)
    ensures r.Ok? ==> r.value == b.lots[0]
  {
    if IsEmpty(b) then Err(PeekAtEmpty) else Ok(b.lots[0])
  }

  // ---------------------------------------------------------------------------
  // Pop(qty): exactly `qty` kg, drawn from the front, splitting one lot if needed.

  /** Whole lots are taken from the front while they fit in what is still
      wanted; the first lot that is larger is split in the proportion wanted,
      its remainder staying at the front. */
  function Take(lots: seq<Material>, left: real): (r: (Material, seq<Material>))
    requires left <= 0.0 || left <= Mass(Content(lots))
    ensures Mass(r.0) == Max0(left)
    ensures Add(r.0, Content(r.1)) == Content(lots)
    ensures AllValid(lots) ==> Valid(r.0) && AllValid(r.1)
    ensures |r.1| <= |lots|
    decreases |lots|, 1
  {
    if left <= 0.0 then
      AddNothing(Content(lots));
      (Nothing, lots)
    else if Mass(lots[0]) > left then
      TakeSplit(lots, left)
    else
      TakeWhole(lots, left)
  }

  function TakeSplit(lots: seq<Material>, left: real): (r: (Material, seq<Material>))
    requires |lots| > 0 && 0.0 < left < Mass(lots[0])
    ensures Mass(r.0) == left
    ensures Add(r.0, Content(r.1)) == Content(lots)
    ensures AllValid(lots) ==> Valid(r.0) && AllValid(r.1)
    ensures |r.1| == |lots|
  {
    var p := Portion(lots[0], left);
    PortionFront(lots, p.0, p.1);
    (p.0, [p.1] + lots[1..])
  }

  function TakeWhole(lots: seq<Material>, left: real): (r: (Material, seq<Material>))
    requires |lots| > 0 && 0.0 < left && Mass(lots[0]) <= left <= Mass(Content(lots))
    ensures Mass(r.0) == left
    ensures Add(r.0, Content(r.1)) == Content(lots)
    ensures AllValid(lots) ==> Valid(r.0) && AllValid(r.1)
    ensures |r.1| < |lots|
    decreases |lots|, 0
  {
    MassFront(lots);
    var rest := Take(lots[1..], left - Mass(lots[0]));
    WholeStep(lots, left, rest.0, rest.1);
    AddMasses(lots[0], rest.0);
    (Add(lots[0], rest.0), rest.1)
  }

  lemma PortionFront(lots: seq<Material>, a: Material, b: Material)
    requires |lots| > 0 && Add(a, b) == lots[0]
    ensures Add(a, Content([b] + lots[1..])) == Content(lots)
  {
    assert ([b] + lots[1..])[1..] == lots[1..];
    AddAssoc(a, b, Content(lots[1..]));
  }

  /** ExtractQty on one lot: `left` kg of the lot's composition, and the rest. */
  function Portion(m: Material, left: real): (r: (Material, Material))
    requires 0.0 < left < Mass(m)
    ensures Mass(r.0) == left && Add(r.0, r.1) == m
    ensures forall n :: MassOf(r.0, n) * Mass(m) == MassOf(m, n) * left
    ensures Valid(m) ==> Valid(r.0) && Valid(r.1)
  {
    var f := left / Mass(m);
    ShareBelowOne(left, Mass(m));
    MassScale(m, f);
    MassScale(m, 1.0 - f);
    SplitWhole(m, f);
    ScaleComposition(m, f, left);
    (Scale(m, f), Scale(m, 1.0 - f))
  }

  lemma MassFront(lots: seq<Material>)
    requires |lots| > 0
    ensures Mass(Content(lots)) == Mass(lots[0]) + Mass(Content(lots[1..]))
  {
    AddMasses(lots[0], Content(lots[1..]));
  }

  /** The front lot fits in the request: it is taken whole. */
  lemma WholeStep(lots: seq<Material>, left: real, p: Material, rest: seq<Material>)
    requires |lots| > 0 && Mass(lots[0]) <= left
    requires Mass(p) == Max0(left - Mass(lots[0]))
    requires Add(p, Content(rest)) == Content(lots[1..])
    ensures Mass(Add(lots[0], p)) == left
    ensures Add(Add(lots[0], p), Content(rest)) == Content(lots)
  {
    AddAssoc(lots[0], p, Content(rest));
    AddMasses(lots[0], p);
  }

  /** Pop(qty): the host refuses a request above the buffer's quantity; a
      request of zero or less takes nothing. */
  function PopQty(b: ResBuf, qty: real): (r: Result<(Material, ResBuf), Fault>)
    ensures r.Err? <==> qty > Quantity(b)
    ensures r.Err? ==> r.error == Overdraw(qty, Quantity(b))
    ensures r.Ok? ==> Mass(r.value.0) == Max0(qty)
    ensures r.Ok? ==> Add(r.value.0, Content(r.value.1.lots)) == Content(b.lots)
    ensures r.Ok? ==> Quantity(r.value.1) == Quantity(b) - Max0(qty)
    ensures r.Ok? ==> r.value.1.bulk == b.bulk && (WellFormed(b) ==> WellFormed(r.value.1))
    ensures r.Ok? && AllValid(b.lots) ==> Valid(r.value.0) && AllValid(r.value.1.lots)
  {
    if qty > Quantity(b) then Err(Overdraw(qty, Quantity(b)))
    else
      var t := Take(b.lots, qty);
      Ok((t.0, b.(lots := t.1)))
  }

  // ---------------------------------------------------------------------------
  // Squash: every lot absorbed, in order, into the first.

  function Squash(lots: seq<Material>): (r: Material)
    requires |lots| > 0
    ensures r == Content(lots)
    decreases |lots|
  {
    if |lots| == 1 then
      assert lots[1..] == [];
      AddNothing(lots[0]);
      lots[0]
    else
      var init := lots[..|lots| - 1];
      var last := lots[|lots| - 1];
      assert lots == init + [last];
      ContentAppend(init, last);
      Add(Squash(init), last)
  }
}
