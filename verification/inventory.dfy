/** The buffer operations the facilities apply to their inventories: merge all
    lots into one (CombineInventory), strip helium-3 out of the front lot
    (ExtractHelium), and radioactive decay of the front lot or of every lot. */
module Inventory {
  import opened Materials
  import opened ResBufs

  // ---------------------------------------------------------------------------
  // CombineInventory.

  /** The front lot is popped and absorbs every remaining lot in order; the
      buffer, now empty, receives the merged lot back. An empty buffer is left
      alone. */
  function Combine(b: ResBuf): (r: ResBuf)
    ensures r.bulk == b.bulk
    ensures IsEmpty(r) <==> IsEmpty(b)
    ensures !IsEmpty(b) ==> r.lots == [Content(b.lots)]
  {
    if IsEmpty(b) then b else ResBuf([Squash(b.lots)], b.bulk)
  }

  lemma ContentSingle(m: Material)
    ensures Content([m]) == m
  {
    assert [m][1..] == [];
    AddNothing(m);
  }

  /** Merging keeps what the buffer holds, nuclide by nuclide, and leaves at
      most one lot. */
  lemma CombineKeeps(b: ResBuf)
    ensures |Combine(b).lots| <= 1
    ensures Content(Combine(b).lots) == Content(b.lots)
    ensures Quantity(Combine(b)) == Quantity(b)
    ensures AllValid(b.lots) ==> AllValid(Combine(b).lots)
    ensures WellFormed(Combine(b))
  {
    if !IsEmpty(b) {
      ContentSingle(Content(b.lots));
      if AllValid(b.lots) {
        ContentValid(b.lots);
        assert [Content(b.lots)][1..] == [];
      }
    }
  }

  /** A buffer with at most one lot is already merged. */
  lemma CombineNoOp(b: ResBuf)
    requires |b.lots| <= 1
    ensures Combine(b) == b
  {
    if |b.lots| == 1 {
      ContentSingle(b.lots[0]);
      assert b.lots == [b.lots[0]];
    }
  }

  lemma CombineIdempotent(b: ResBuf)
    ensures Combine(Combine(b)) == Combine(b)
  {
    CombineKeeps(b);
    CombineNoOp(Combine(b));
  }

  /** Popping a quantity from one buffer into another that is then merged
      moves exactly that quantity. */
  lemma MoveMerged(src: ResBuf, dst: ResBuf, q: real)
    requires 0.0 <= q <= Quantity(src)
    ensures var t := PopQty(src, q).value;
            && Quantity(t.1) == Quantity(src) - q
            && Quantity(Combine(Push(dst, t.0))) == Quantity(dst) + q
  {
    var t := PopQty(src, q).value;
    CombineKeeps(Push(dst, t.0));
  }

  // ---------------------------------------------------------------------------
  // ExtractHelium.

  /** The front lot is popped, its whole helium-3 mass is extracted as a pure
      helium-3 lot and pushed into `helium`, and the stripped lot is pushed
      back into the inventory. An empty inventory is left alone. */
  function ExtractHelium(inv: ResBuf, helium: ResBuf): (r: (ResBuf, ResBuf))
    ensures IsEmpty(inv) ==> r == (inv, helium)
    ensures r.0.bulk == inv.bulk && r.1.bulk == helium.bulk
    ensures WellFormed(inv) ==> |r.0.lots| == |inv.lots|
  {
    if IsEmpty(inv) then (inv, helium)
    else
      var mat := inv.lots[0];
      var rest := inv.(lots := inv.lots[1..]);
      (Push(rest, Strip(mat, He3)), Push(helium, Pure(He3, MassOf(mat, He3))))
  }

  /** The helium-3 of the front lot, the mass ExtractHelium moves. */
  function FrontHe3(inv: ResBuf): real {
    if IsEmpty(inv) then 0.0 else MassOf(inv.lots[0], He3)
  }

  /** ExtractHelium moves exactly the front lot's helium-3: the inventory loses
      that pure helium-3 and nothing else, the helium buffer gains it, and the
      two buffers together hold what they held before. */
  lemma ExtractHeliumMoves(inv: ResBuf, helium: ResBuf)
    ensures var r := ExtractHelium(inv, helium);
            && Add(Content(r.0.lots), Pure(He3, FrontHe3(inv))) == Content(inv.lots)
            && Content(r.1.lots) == Add(Content(helium.lots), Pure(He3, FrontHe3(inv)))
  {
    var x := FrontHe3(inv);
    if IsEmpty(inv) {
      assert x == 0.0;
      AddNothing(Content(inv.lots));
      AddNothing(Content(helium.lots));
      assert Pure(He3, 0.0) == Nothing;
    } else {
      var mat := inv.lots[0];
      var rest := inv.lots[1..];
      var r := ExtractHelium(inv, helium);
      assert Content(r.0.lots) == Add(Content(rest), Strip(mat, He3));
      ExtractWhole(mat, He3);
      calc {
        Add(Content(r.0.lots), Pure(He3, x));
        Add(Add(Content(rest), Strip(mat, He3)), Pure(He3, x));
        { AddAssoc(Content(rest), Strip(mat, He3), Pure(He3, x)); }
        Add(Content(rest), Add(Strip(mat, He3), Pure(He3, x)));
        Add(Content(rest), mat);
        { AddComm(Content(rest), mat); }
        Content(inv.lots);
      }
    }
  }

  lemma ExtractHeliumQuantities(inv: ResBuf, helium: ResBuf)
    ensures var r := ExtractHelium(inv, helium);
            && Quantity(r.1) == Quantity(helium) + FrontHe3(inv)
            && Quantity(r.0) == Quantity(inv) - FrontHe3(inv)
            && Quantity(r.0) + Quantity(r.1) == Quantity(inv) + Quantity(helium)
  {
    if !IsEmpty(inv) {
      var mat := inv.lots[0];
      var x := MassOf(mat, He3);
      var rest := inv.(lots := inv.lots[1..]);
      MassFront(inv.lots);
      assert Quantity(inv) == Mass(mat) + Quantity(rest);
      ExtractWhole(mat, He3);
      MassPure(He3, x);
    }
  }

  /** The processed lot is pushed back at the end of the inventory without any
      helium-3; in a well-formed bulk inventory it is the only lot. */
  lemma ExtractHeliumStrips(inv: ResBuf, helium: ResBuf)
    requires !IsEmpty(inv) && WellFormed(inv)
    ensures var r := ExtractHelium(inv, helium).0;
            && |r.lots| > 0
            && MassOf(r.lots[|r.lots| - 1], He3) == 0.0
            && (inv.bulk ==> |r.lots| == 1)
  {
  }

  /** Physical lots stay physical, and a well-formed bulk buffer stays so. */
  lemma ExtractHeliumValid(inv: ResBuf, helium: ResBuf)
    ensures var r := ExtractHelium(inv, helium);
            && (AllValid(inv.lots) && AllValid(helium.lots) ==> AllValid(r.0.lots) && AllValid(r.1.lots))
            && (WellFormed(inv) ==> WellFormed(r.0))
            && (WellFormed(helium) ==> WellFormed(r.1))
  {
    if !IsEmpty(inv) && AllValid(inv.lots) {
      assert Valid(inv.lots[0]) && AllValid(inv.lots[1..]);
    }
  }

  // ---------------------------------------------------------------------------
  // Decay.

  /** The reactor's DecayInventory: the front lot is popped, decayed to the
      current time and pushed back at the end. */
  function DecayFront(inv: ResBuf, decay: DecayFn, time: nat): (r: ResBuf)
    ensures IsEmpty(inv) ==> r == inv
    ensures r.bulk == inv.bulk
    ensures WellFormed(inv) ==> |r.lots| == |inv.lots|
  {
    if IsEmpty(inv) then inv
    else Push(inv.(lots := inv.lots[1..]), decay(inv.lots[0], time))
  }

  /** Decay of the front lot keeps the inventory's mass, cannot add tritium
      and cannot remove helium-3. */
  lemma DecayFrontLaw(inv: ResBuf, decay: DecayFn, time: nat)
    requires DecayLaw(decay)
    ensures var r := DecayFront(inv, decay, time);
            && Quantity(r) == Quantity(inv)
            && Content(r.lots).t <= Content(inv.lots).t
            && Content(r.lots).he3 >= Content(inv.lots).he3
            && (AllValid(inv.lots) ==> AllValid(r.lots))
            && (WellFormed(inv) ==> WellFormed(r))
  {
    if !IsEmpty(inv) {
      var m := inv.lots[0];
      var d := decay(m, time);
      var rest := inv.lots[1..];
      AddMasses(Content(rest), d);
      AddMasses(m, Content(rest));
      if AllValid(inv.lots) {
        assert Valid(m) && AllValid(rest);
      }
    }
  }

  /** The host's ResBuf::Decay: every lot decayed to the current time. */
  function DecayLots(lots: seq<Material>, decay: DecayFn, time: nat): (r: seq<Material>)
    ensures |r| == |lots|
    ensures forall i :: 0 <= i < |lots| ==> r[i] == decay(lots[i], time)
    decreases |lots|
  {
    if |lots| == 0 then [] else [decay(lots[0], time)] + DecayLots(lots[1..], decay, time)
  }

  function DecayAll(b: ResBuf, decay: DecayFn, time: nat): (r: ResBuf)
    ensures r.bulk == b.bulk && |r.lots| == |b.lots|
  {
    b.(lots := DecayLots(b.lots, decay, time))
  }

  /** Decaying every lot keeps the buffer's mass, cannot add tritium and cannot
      remove helium-3. */
  lemma {:induction false} DecayLotsLaw(lots: seq<Material>, decay: DecayFn, time: nat)
    requires DecayLaw(decay)
    ensures var r := DecayLots(lots, decay, time);
            && Mass(Content(r)) == Mass(Content(lots))
            && Content(r).t <= Content(lots).t
            && Content(r).he3 >= Content(lots).he3
            && (AllValid(lots) ==> AllValid(r))
    decreases |lots|
  {
    if |lots| > 0 {
      var r := DecayLots(lots, decay, time);
      var d := decay(lots[0], time);
      assert r[1..] == DecayLots(lots[1..], decay, time);
      DecayLotsLaw(lots[1..], decay, time);
      AddMasses(d, Content(r[1..]));
      AddMasses(lots[0], Content(lots[1..]));
      if AllValid(lots) {
        assert Valid(lots[0]) && AllValid(lots[1..]);
      }
    }
  }

  lemma DecayAllLaw(b: ResBuf, decay: DecayFn, time: nat)
    requires DecayLaw(decay)
    ensures var r := DecayAll(b, decay, time);
            && Quantity(r) == Quantity(b)
            && Content(r.lots).t <= Content(b.lots).t
            && Content(r.lots).he3 >= Content(b.lots).he3
            && (AllValid(b.lots) ==> AllValid(r.lots))
            && (WellFormed(b) ==> WellFormed(r))
  {
    DecayLotsLaw(b.lots, decay, time);
  }
}
