/** The reactor's trades, reduced to the buffer operations they end in. The
    buy policies deliver into tritium storage (the start-up and refuelling
    purchases) and into the blanket (the blanket fill), each only while it
    runs and never beyond its tracker's room; the sell policies take from
    tritium excess and from the helium-3 store. */
module ReactorTrades {
  import opened Materials
  import opened Results
  import opened ResBufs
  import opened ReactorParams
  import opened Reactor

  /** Why a delivery cannot arrive. */
  datatype Refusal =
    | NotBuying                             // no policy on that buffer is running
    | NoRoom(requested: real, room: real)   // beyond the tracker's limit

  /** What the fuel tracker still lets the purchases request. */
  function FuelRoom(p: Plant): real {
    Max0(FuelLimit - Quantity(p.storage))
  }

  function BlanketRoom(p: Plant): real {
    Max0(BlanketLimit - Quantity(p.blanket))
  }

  /** Tritium bought by the start-up or the refuelling purchase is pushed into
      storage. */
  function DeliverFuel(p: Plant, m: Material): (r: Result<Plant, Refusal>)
    ensures r.Ok? <==> (p.policies.startup || p.policies.refill) && Mass(m) <= FuelRoom(p)
    ensures r.Ok? ==> r.value.excess == p.excess && r.value.blanket == p.blanket
    ensures r.Ok? ==> r.value.helium == p.helium && r.value.sequestered == p.sequestered
    ensures r.Ok? ==> r.value.policies == p.policies && r.value.log == p.log
    ensures r.Ok? ==> Content(r.value.storage.lots) == Add(Content(p.storage.lots), m)
    ensures r.Ok? ==> Quantity(r.value.storage) == Quantity(p.storage) + Mass(m)
    ensures r.Ok? && Quantity(p.storage) <= FuelLimit ==> Quantity(r.value.storage) <= FuelLimit
  {
    if !(p.policies.startup || p.policies.refill) then Err(NotBuying)
    else if Mass(m) > FuelRoom(p) then Err(NoRoom(Mass(m), FuelRoom(p)))
    else Ok(p.(storage := Push(p.storage, m)))
  }

  /** Blanket material bought by the blanket fill is pushed into the blanket. */
  function DeliverBlanket(p: Plant, m: Material): (r: Result<Plant, Refusal>)
    ensures r.Ok? <==> p.policies.blanketFill && Mass(m) <= BlanketRoom(p)
    ensures r.Ok? ==> r.value.storage == p.storage && r.value.blanketExcess == p.blanketExcess
    ensures r.Ok? ==> r.value.policies == p.policies && r.value.log == p.log
    ensures r.Ok? ==> Content(r.value.blanket.lots) == Add(Content(p.blanket.lots), m)
    ensures r.Ok? ==> Quantity(r.value.blanket) == Quantity(p.blanket) + Mass(m)
    ensures r.Ok? && Quantity(p.blanket) <= BlanketLimit ==> Quantity(r.value.blanket) <= BlanketLimit
  {
    if !p.policies.blanketFill then Err(NotBuying)
    else if Mass(m) > BlanketRoom(p) then Err(NoRoom(Mass(m), BlanketRoom(p)))
    else Ok(p.(blanket := Push(p.blanket, m)))
  }

  /** A sale of excess tritium takes the traded quantity from the excess. */
  function SellExcess(p: Plant, qty: real): (r: Result<(Material, Plant), Fault>)
    ensures r.Err? <==> qty > Quantity(p.excess)
    ensures r.Ok? ==> r.value.1.storage == p.storage && r.value.1.helium == p.helium
    ensures r.Ok? ==> r.value.1.sequestered == p.sequestered && r.value.1.log == p.log
    ensures r.Ok? ==> Mass(r.value.0) == Max0(qty)
    ensures r.Ok? ==> Quantity(r.value.1.excess) == Quantity(p.excess) - Max0(qty)
  {
    var t :- PopQty(p.excess, qty);
    Ok((t.0, p.(excess := t.1)))
  }

  /** A sale of helium-3 takes the traded quantity from the helium store. */
  function SellHelium(p: Plant, qty: real): (r: Result<(Material, Plant), Fault>)
    ensures r.Err? <==> qty > Quantity(p.helium)
    ensures r.Ok? ==> r.value.1.storage == p.storage && r.value.1.excess == p.excess
    ensures r.Ok? ==> r.value.1.sequestered == p.sequestered && r.value.1.log == p.log
    ensures r.Ok? ==> Mass(r.value.0) == Max0(qty)
    ensures r.Ok? ==> Quantity(r.value.1.helium) == Quantity(p.helium) - Max0(qty)
  {
    var t :- PopQty(p.helium, qty);
    Ok((t.0, p.(helium := t.1)))
  }

  /** A shut-down core buys tritium: OperateReactor's shut-down restarts the
      start-up purchase, so storage can be refilled, up to the room left. */
  lemma ShutDownBuys(p: Plant, s: Setup, time: nat, m: Material)
    requires s.usageMass >= 0.0
    requires !IsEmpty(p.storage) && Mass(p.storage.lots[0]) <= s.usageMass
    requires Mass(m) <= FuelRoom(OperateReactor(p, s, time).value)
    ensures DeliverFuel(OperateReactor(p, s, time).value, m).Ok?
  {
  }
}
