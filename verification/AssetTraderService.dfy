/** The trader as it runs: its one optional record is replaced by every purchase and refund. */
module AssetTraderService {
  import opened Common
  import opened AssetTrader
  import Spec = AssetTrader

  class TakeFirstAssetTrader {
    var refunder: Option<Refunder>

    constructor ()
      ensures refunder == None
    {
      refunder := None;
    }

    method BuyWeight(m: Market, weight: nat, payment: seq<Asset>) returns (result: Bought)
      modifies this
      ensures (refunder, result) == Spec.BuyWeight(old(refunder), m, weight, payment)
    {
      // Never sell twice.
      if refunder.Some? { return Rejected(NotWithdrawable); }
      if payment == [] { return Rejected(AssetNotFound); }
      var first := payment[0];
      var local := m.localId(first.id);
      if local.None? { return Rejected(AssetNotFound); }
      var amount := m.charge(local.value, weight);
      if amount.None? { return Rejected(ChargeFailed); }
      var minimumBalance := m.minimum(local.value);
      var assetBalance := if amount.value < minimumBalance then minimumBalance else amount.value;
      if assetBalance >= U128 { return Rejected(Overflow); }
      if first.amount < assetBalance { return Rejected(TooExpensive); }
      refunder := Some(Refunder(weight, Asset(first.id, assetBalance)));
      result := Unused(payment[0 := Asset(first.id, first.amount - assetBalance)]);
    }

    method RefundWeight(m: Market, weight: nat) returns (asset: Option<Asset>)
      modifies this
      ensures (refunder, asset) == Spec.RefundWeight(old(refunder), m, weight)
      ensures old(refunder).Some? ==>
                var before := old(refunder).value.outstanding; var local := m.localId(before.id);
                local.Some? && before.amount >= m.minimum(local.value) ==>
                  Revenue(refunder) + AmountOf(asset) == before.amount && Revenue(refunder) >= m.minimum(local.value)
      ensures refunder.Some? && asset.Some? ==> asset.value.id == refunder.value.outstanding.id
    {
      if refunder.None? { return None; }
      var r := refunder.value;
      var w := Min(weight, r.weight);
      var local := m.localId(r.outstanding.id);
      if local.None? { return None; }
      var minimumBalance := m.minimum(local.value);
      var price := m.charge(local.value, w);
      if price.None? { return None; }
      var outstanding := r.outstanding.amount;
      var assetBalance, left;
      if SatSub(outstanding, price.value) > minimumBalance {
        assetBalance, left := price.value, SatSub(outstanding, price.value);
      } else {
        assetBalance, left := SatSub(outstanding, minimumBalance), minimumBalance;
      }
      refunder := Some(Refunder(r.weight - w, Asset(r.outstanding.id, Saturate(left))));
      asset := if Saturate(assetBalance) > 0 then Some(Asset(r.outstanding.id, Saturate(assetBalance))) else None;
    }

    /** Dropping the trader hands over what is outstanding. */
    method Drop() returns (revenue: Option<Asset>)
      ensures AmountOf(revenue) == Revenue(refunder)
      ensures revenue.Some? <==> refunder.Some?
      ensures revenue.Some? ==> revenue.value.id == refunder.value.outstanding.id
    {
      revenue := if refunder.Some? then Some(refunder.value.outstanding) else None;
    }
  }
}
