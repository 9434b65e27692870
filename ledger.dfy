/**
 * The part of the Algorand ledger the contract reads and changes: account
 * balances (in microalgos) and the asset table, with the optional reads the
 * AVM offers on both.
 */
module Ledger {
  import opened Types

  type AssetId = nat

  /**
   * An asset's parameters. The four authority slots hold the zero address
   * when unset; `creator` is the account that created the asset.
   */
  datatype Asset = Asset(
    total: Uint64,
    decimals: Uint64,
    defaultFrozen: bool,
    unitName: Bytes,
    assetName: Bytes,
    url: Bytes,
    manager: Address,
    reserve: Address,
    freeze: Address,
    clawback: Address,
    creator: Address)

  type Assets = map<AssetId, Asset>

  /** The authority slots that `AssetParam` can read. */
  datatype AssetField = Manager | Reserve | Freeze | Clawback

  /**
   * `AssetParam.<field>(id)`: the AVM's `asset_params_get`, whose flag is set
   * exactly when the asset exists (an unset slot reads as the zero address).
   */
  function AssetParam(assets: Assets, id: AssetId, field: AssetField): (r: Option<Address>)
    ensures r.Some? <==> id in assets
  {
    if id !in assets then None
    else
      var a := assets[id];
      Some(match field
        case Manager => a.manager
        case Reserve => a.reserve
        case Freeze => a.freeze
        case Clawback => a.clawback)
  }

  /**
   * `AssetHolding.balance(account, id).hasValue()`: whether the account holds
   * the asset. An asset's creator holds it from creation; opt-ins of other
   * accounts are not part of this model.
   */
  function HoldsAsset(assets: Assets, account: Address, id: AssetId): (r: bool)
    ensures r ==> AssetParam(assets, id, Manager).Some?
    ensures id in assets && account == assets[id].creator ==> r
  {
    id in assets && assets[id].creator == account
  }

  type Balances = map<Address, Uint64>

  /** The balance of an account; an account that never received anything has 0. */
  function BalanceOf(b: Balances, a: Address): Uint64 {
    if a in b then b[a] else 0
  }

  /** A payment can be made when the sender has the funds and the receiver's balance stays a uint64. */
  predicate CanTransfer(b: Balances, from: Address, to: Address, amount: Uint64) {
    amount <= BalanceOf(b, from) && (from == to || BalanceOf(b, to) + amount <= MaxUint64)
  }

  /** Every balance of `b'` is that of `b` with `amount` moved from `from` to `to`. */
  ghost predicate Moved(b: Balances, b': Balances, from: Address, to: Address, amount: nat) {
    forall a: Address :: BalanceOf(b', a) as int ==
      BalanceOf(b, a) as int - (if a == from then amount else 0) + (if a == to then amount else 0)
  }

  /** A payment transaction, executed by the ledger; None when the ledger rejects it. */
  function Transfer(b: Balances, from: Address, to: Address, amount: Uint64): (r: Option<Balances>)
    ensures r.Some? <==> CanTransfer(b, from, to, amount)
    ensures r.Some? ==> Moved(b, r.value, from, to, amount)
  {
    if !CanTransfer(b, from, to, amount) then None
    else
      var debited := b[from := BalanceOf(b, from) - amount];
      Some(debited[to := BalanceOf(debited, to) + amount])
  }

  /** A payment preserves the sum of the two balances it touches. */
  lemma TransferConserves(b: Balances, from: Address, to: Address, amount: Uint64)
    requires CanTransfer(b, from, to, amount)
    ensures var b' := Transfer(b, from, to, amount).value;
      BalanceOf(b', from) + BalanceOf(b', to) == BalanceOf(b, from) + BalanceOf(b, to)
  {
    var b' := Transfer(b, from, to, amount).value;
    assert BalanceOf(b', from) as int == BalanceOf(b, from) as int - amount + (if from == to then amount else 0);
    assert BalanceOf(b', to) as int == BalanceOf(b, to) as int - (if from == to then amount else 0) + amount;
  }
}
