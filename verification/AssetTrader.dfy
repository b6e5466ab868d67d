/**
 The trader that sells execution weight for the first fungible asset offered, refunds unused weight,
 and gives what is left to the fee receiver when it is dropped.
 */
module AssetTrader {
  import opened Common

  type AssetId = nat

  const U128: nat := 0x1_0000_0000_0000_0000_0000_0000_0000_0000

  /** Amounts in messages have 128 bits; the balances of the asset pallet may be wider. */
  type Amount = n: nat | n < U128

  function Saturate(n: nat): (a: Amount) { if n < U128 then n else U128 - 1 }

  /** One fungible holding; a payment is a list of holdings of different assets. */
  datatype Asset = Asset(id: AssetId, amount: Amount)

  /** What was sold and not refunded yet. */
  datatype Refunder = Refunder(weight: nat, outstanding: Asset)

  /**
   The runtime's answers at the time of one call: the local asset for an asset id, the price of some
   weight in it, and its minimum balance. They may differ from call to call.
   */
  datatype Market = Market(localId: AssetId -> Option<nat>, charge: (nat, nat) -> Option<nat>, minimum: nat -> nat)

  datatype XcmError = NotWithdrawable | AssetNotFound | ChargeFailed | Overflow | TooExpensive

  datatype Bought = Unused(payment: seq<Asset>) | Rejected(error: XcmError)

  /** The amount asked for: the price, but at least the minimum balance. */
  function Required(m: Market, local: nat, weight: nat): Option<nat> {
    var price := m.charge(local, weight);
    if price.None? then None else Some(if price.value < m.minimum(local) then m.minimum(local) else price.value)
  }

  function BuyWeight(t: Option<Refunder>, m: Market, weight: nat, payment: seq<Asset>): (Option<Refunder>, Bought) {
    if t.Some? then (t, Rejected(NotWithdrawable))
    else if payment == [] then (t, Rejected(AssetNotFound))
    else
      var first := payment[0];
      var local := m.localId(first.id);
      if local.None? then (t, Rejected(AssetNotFound))
      else
        var required := Required(m, local.value, weight);
        if required.None? then (t, Rejected(ChargeFailed))
        else if required.value >= U128 then (t, Rejected(Overflow))
        else if first.amount < required.value then (t, Rejected(TooExpensive))
        else
          (Some(Refunder(weight, Asset(first.id, required.value))),
           Unused(payment[0 := Asset(first.id, first.amount - required.value)]))
  }

  /** The refund of up to `weight` and what stays outstanding, which is never taken below the minimum. */
  function Refund(outstanding: nat, price: nat, minimum: nat): (nat, nat) {
    if SatSub(outstanding, price) > minimum then (price, SatSub(outstanding, price))
    else (SatSub(outstanding, minimum), minimum)
  }

  function RefundWeight(t: Option<Refunder>, m: Market, weight: nat): (Option<Refunder>, Option<Asset>) {
    if t.None? then (t, None)
    else
      var r := t.value;
      var w := Min(weight, r.weight);
      var local := m.localId(r.outstanding.id);
      if local.None? then (t, None)
      else
        var price := m.charge(local.value, w);
        if price.None? then (t, None)
        else
          var (back, left) := Refund(r.outstanding.amount, price.value, m.minimum(local.value));
          (Some(Refunder(r.weight - w, Asset(r.outstanding.id, Saturate(left)))),
           if Saturate(back) > 0 then Some(Asset(r.outstanding.id, Saturate(back))) else None)
  }

  /** What the fee receiver gets when the trader is dropped. */
  function Revenue(t: Option<Refunder>): nat { if t.Some? then t.value.outstanding.amount else 0 }

  /** Weight sold and not refunded. */
  function WeightOf(t: Option<Refunder>): nat { if t.Some? then t.value.weight else 0 }

  function AmountOf(a: Option<Asset>): nat { if a.Some? then a.value.amount else 0 }

  // ------------------------------------------------------------------ conservation

  /**
   Splitting the outstanding amount never loses anything, and it creates nothing if and only if the
   amount is at least the minimum balance, as far as 128 bits can say. What comes back is the price, or
   all that is above the minimum if that is less; the minimum stays.
   */
  lemma RefundConservesIff(outstanding: Amount, price: nat, minimum: nat)
    ensures var (back, left) := Refund(outstanding, price, minimum);
            && back == Min(price, SatSub(outstanding, minimum)) && left == (if SatSub(outstanding, price) > minimum then SatSub(outstanding, price) else minimum)
            && back < U128 && back + Saturate(left) >= outstanding
            && (back + Saturate(left) == outstanding <==> outstanding >= Saturate(minimum))
            && Saturate(left) >= Saturate(minimum)
  {
  }

  /** A purchase takes from the first holding exactly what it records, at least the price and the minimum. */
  lemma BuyConserves(t: Option<Refunder>, m: Market, weight: nat, payment: seq<Asset>)
    ensures var (t', result) := BuyWeight(t, m, weight, payment);
            match result
            case Rejected(_) => t' == t
            case Unused(rest) =>
              && t.None? && t'.Some? && t'.value.weight == weight && |rest| == |payment| && rest[1..] == payment[1..]
              && rest[0].id == payment[0].id == t'.value.outstanding.id
              && rest[0].amount + t'.value.outstanding.amount == payment[0].amount
              && var local := m.localId(payment[0].id);
                 && local.Some? && m.charge(local.value, weight).Some?
                 && t'.value.outstanding.amount >= m.minimum(local.value)
                 && t'.value.outstanding.amount >= m.charge(local.value, weight).value
  {
  }

  /**
   Exactly when weight is sold and for what: to a trader that has not sold yet, for the first holding, if
   its asset is known and priced, for the price or the minimum balance, whichever is more, as far as that
   is a 128-bit amount the holding covers.
   */
  lemma BoughtIff(t: Option<Refunder>, m: Market, weight: nat, payment: seq<Asset>)
    ensures var (t', result) := BuyWeight(t, m, weight, payment);
            && (result.Unused? <==>
                && t.None? && payment != [] && m.localId(payment[0].id).Some?
                && var local := m.localId(payment[0].id).value;
                   && m.charge(local, weight).Some?
                   && m.charge(local, weight).value <= payment[0].amount && m.minimum(local) <= payment[0].amount)
            && (result == Rejected(NotWithdrawable) <==> t.Some?)
            && (result == Rejected(AssetNotFound) <==> t.None? && (payment == [] || m.localId(payment[0].id).None?))
            && (t.None? && payment != [] && m.localId(payment[0].id).Some? ==>
                  var local := m.localId(payment[0].id).value; var price, minimum := m.charge(local, weight), m.minimum(local);
                  && (result == Rejected(ChargeFailed) <==> price.None?)
                  && (result == Rejected(Overflow) <==> price.Some? && (price.value >= U128 || minimum >= U128)))
            && (result.Unused? ==>
                  var local := m.localId(payment[0].id).value;
                  t'.value.outstanding.amount == m.charge(local, weight).value || t'.value.outstanding.amount == m.minimum(local))
  {
  }

  /** One later call, with the market as it is then. */
  datatype Call = Call(market: Market, weight: nat)

  datatype Ledger = Ledger(t: Option<Refunder>, refunded: nat, weightRefunded: nat)

  function RefundAll(l: Ledger, calls: seq<Call>): Ledger
    decreases |calls|
  {
    if calls == [] then l
    else
      var (t', asset) := RefundWeight(l.t, calls[0].market, calls[0].weight);
      RefundAll(Ledger(t', l.refunded + AmountOf(asset), l.weightRefunded + SatSub(WeightOf(l.t), WeightOf(t'))), calls[1..])
  }

  /** The refund call finds the asset and its price, and so changes something. */
  predicate Priced(t: Option<Refunder>, c: Call) {
    t.Some? &&
    var local := c.market.localId(t.value.outstanding.id);
    local.Some? && c.market.charge(local.value, Min(c.weight, t.value.weight)).Some?
  }

  /** The minimum balance at the time of the call, of the asset that was paid with. */
  function MinimumAt(t: Refunder, m: Market): nat {
    var local := m.localId(t.outstanding.id);
    if local.None? then 0 else m.minimum(local.value)
  }

  /** At every refund that goes through, what is outstanding is at least the minimum balance of that moment. */
  predicate Covered(t: Option<Refunder>, calls: seq<Call>)
    decreases |calls|
  {
    calls == [] ||
    (&& (Priced(t, calls[0]) ==> t.value.outstanding.amount >= Saturate(MinimumAt(t.value, calls[0].market)))
     && Covered(RefundWeight(t, calls[0].market, calls[0].weight).0, calls[1..]))
  }

  lemma OneRefund(t: Option<Refunder>, c: Call)
    ensures var (t', asset) := RefundWeight(t, c.market, c.weight);
            && t'.Some? == t.Some?
            && Revenue(t') + AmountOf(asset) >= Revenue(t)
            && (Revenue(t') + AmountOf(asset) == Revenue(t) <==>
                (Priced(t, c) ==> t.value.outstanding.amount >= Saturate(MinimumAt(t.value, c.market))))
            && WeightOf(t') <= WeightOf(t)
            && (t.Some? ==> t'.value.outstanding.id == t.value.outstanding.id)
            && (Priced(t, c) ==> Revenue(t') >= Saturate(MinimumAt(t.value, c.market)))
            && (!Priced(t, c) ==> t' == t && asset == None)
  {
    if Priced(t, c) {
      var local := c.market.localId(t.value.outstanding.id).value;
      RefundConservesIff(t.value.outstanding.amount, c.market.charge(local, Min(c.weight, t.value.weight)).value, c.market.minimum(local));
    }
  }

  /**
   Exactly what a refund does if it finds a price: the weight goes down by what is asked for, as far as it
   was bought, and the price of that weight comes back, as far as the minimum balance stays.
   */
  lemma RefundIsExact(t: Option<Refunder>, c: Call)
    ensures var (t', asset) := RefundWeight(t, c.market, c.weight);
            if Priced(t, c) then
              var r, w := t.value, Min(c.weight, t.value.weight);
              var local := c.market.localId(r.outstanding.id).value;
              && WeightOf(t') == r.weight - w
              && AmountOf(asset) == Min(c.market.charge(local, w).value, SatSub(r.outstanding.amount, c.market.minimum(local)))
              && (asset.Some? ==> asset.value.id == r.outstanding.id)
            else t' == t && asset == None
  {
    if Priced(t, c) {
      var local := c.market.localId(t.value.outstanding.id).value;
      RefundConservesIff(t.value.outstanding.amount, c.market.charge(local, Min(c.weight, t.value.weight)).value, c.market.minimum(local));
    }
  }

  /**
   Fee conservation over any sequence of refunds, with prices, failures and minimum balances as they may
   be: refunds and revenue together never fall below what was there, and they equal it if and only if
   every refund that went through found at least the minimum balance of its moment outstanding. Weight
   is conserved in any case.
   */
  lemma {:induction false} FeesConservedIff(l: Ledger, calls: seq<Call>)
    ensures var l' := RefundAll(l, calls);
            && l'.t.Some? == l.t.Some?
            && (l.t.Some? ==> l'.t.value.outstanding.id == l.t.value.outstanding.id)
            && l'.refunded + Revenue(l'.t) >= l.refunded + Revenue(l.t)
            && (l'.refunded + Revenue(l'.t) == l.refunded + Revenue(l.t) <==> Covered(l.t, calls))
            && l'.weightRefunded + WeightOf(l'.t) == l.weightRefunded + WeightOf(l.t)
    decreases |calls|
  {
    hide RefundWeight;
    hide Priced;
    hide MinimumAt;
    hide Saturate;
    if calls != [] {
      var c := calls[0];
      var (t', asset) := RefundWeight(l.t, c.market, c.weight);
      OneRefund(l.t, c);
      FeesConservedIff(Ledger(t', l.refunded + AmountOf(asset), l.weightRefunded + SatSub(WeightOf(l.t), WeightOf(t'))), calls[1..]);
    }
  }

  /** The minimum balance at the last refund that went through, if any did. */
  function LastMinimum(t: Option<Refunder>, calls: seq<Call>): Option<nat>
    decreases |calls|
  {
    if calls == [] then None
    else
      var later := LastMinimum(RefundWeight(t, calls[0].market, calls[0].weight).0, calls[1..]);
      if later.None? && Priced(t, calls[0]) then Some(MinimumAt(t.value, calls[0].market)) else later
  }

  /** Refunds never take what is outstanding below the minimum balance of the last one; calls that find no price do nothing. */
  lemma {:induction false} RefundsKeepMinimum(l: Ledger, calls: seq<Call>)
    ensures var l' := RefundAll(l, calls);
            match LastMinimum(l.t, calls)
            case Some(minimum) => Revenue(l'.t) >= Saturate(minimum)
            case None => l'.t == l.t && l'.refunded == l.refunded
    decreases |calls|
  {
    hide RefundWeight;
    hide Priced;
    hide MinimumAt;
    hide Saturate;
    if calls != [] {
      var c := calls[0];
      var (t', asset) := RefundWeight(l.t, c.market, c.weight);
      OneRefund(l.t, c);
      RefundsKeepMinimum(Ledger(t', l.refunded + AmountOf(asset), l.weightRefunded + SatSub(WeightOf(l.t), WeightOf(t'))), calls[1..]);
    }
  }

  /**
   From purchase to drop: the first holding paid equals what is left of it, plus refunds, plus revenue,
   if and only if every refund is covered; no more weight is refunded than was bought. The revenue is at
   least the minimum balance at the last refund, or at the purchase if no refund went through.
   */
  lemma PaidIsUnusedRefundedAndRevenueIff(m: Market, weight: nat, payment: seq<Asset>, calls: seq<Call>)
    requires BuyWeight(None, m, weight, payment).1.Unused?
    ensures var (t, result) := BuyWeight(None, m, weight, payment);
            var l := RefundAll(Ledger(t, 0, 0), calls);
            && (payment[0].amount == result.payment[0].amount + l.refunded + Revenue(l.t) <==> Covered(t, calls))
            && l.weightRefunded <= weight
            && Revenue(l.t) >= match LastMinimum(t, calls)
                               case Some(minimum) => Saturate(minimum)
                               case None => MinimumAt(t.value, m)
  {
    hide RefundAll;
    hide LastMinimum;
    BuyConserves(None, m, weight, payment);
    RefundsKeepMinimum(Ledger(BuyWeight(None, m, weight, payment).0, 0, 0), calls);
    FeesConservedIff(Ledger(BuyWeight(None, m, weight, payment).0, 0, 0), calls);
  }

  /** If the minimum balance has grown above what is outstanding, a refund call creates money. */
  lemma GrownMinimumCreatesMoney(r: Refunder, m: Market, weight: nat, local: nat)
    requires m.localId(r.outstanding.id) == Some(local) && m.charge(local, Min(weight, r.weight)).Some?
    requires r.outstanding.amount < Saturate(m.minimum(local))
    ensures var (t', asset) := RefundWeight(Some(r), m, weight); Revenue(t') + AmountOf(asset) > r.outstanding.amount
  {
    RefundConservesIff(r.outstanding.amount, m.charge(local, Min(weight, r.weight)).value, m.minimum(local));
  }
}
