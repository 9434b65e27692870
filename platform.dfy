/**
 * `ContractoriumPlatform` as an object: its fields are the global state, the
 * program boxes and the ledger it acts on; each external method runs its
 * checks in the source's order and then updates the fields. A failed check
 * returns `false` before any field is written, which is the all-or-nothing
 * revert of an application call. Each method is proved to agree with the
 * transition of the same name in `Contract`.
 */
module Application {
  import opened Types
  import opened Ledger
  import Cuts
  import Contract

  class ContractoriumPlatform {
    const app: Address
    const creator: Address
    var manager: Address
    var cut: Uint64
    var programs: map<Address, Contract.Program>
    var assets: Assets
    var nextAssetId: AssetId
    var balances: Balances

    /** The abstract state the fields stand for. */
    function Snapshot(): Contract.State
      reads this
    {
      Contract.State(app, creator, manager, cut, programs, assets, nextAssetId, balances)
    }

    ghost predicate Valid()
      reads this
    {
      Contract.Valid(Snapshot())
    }

    /** `create`: deploys the application with its default global state. */
    constructor (app: Address, creator: Address, balances: Balances, assets: Assets, nextAssetId: AssetId)
      requires Contract.FreshDeployment(app, assets, nextAssetId)
      ensures Valid()
      ensures Snapshot() == Contract.Create(app, creator, balances, assets, nextAssetId)
    {
      this.app := app;
      this.creator := creator;
      this.manager := creator;
      this.cut := Cuts.DefaultCut;
      this.programs := map[];
      this.assets := assets;
      this.nextAssetId := nextAssetId;
      this.balances := balances;
    }

    method ResignManager(sender: Address, newManager: Address) returns (ok: bool)
      requires Valid()
      modifies this
      ensures Valid()
      ensures ok == Contract.ResignManager(old(Snapshot()), sender, newManager).Approved?
      ensures ok ==> Snapshot() == Contract.ResignManager(old(Snapshot()), sender, newManager).next
      ensures !ok ==> unchanged(this)
    {
      if sender != manager { return false; }
      manager := newManager;
      ok := true;
    }

    method SetCut(sender: Address, newCut: Uint64) returns (ok: bool)
      requires Valid()
      modifies this
      ensures Valid()
      ensures ok == Contract.SetCut(old(Snapshot()), sender, newCut).Approved?
      ensures ok ==> Snapshot() == Contract.SetCut(old(Snapshot()), sender, newCut).next
      ensures !ok ==> unchanged(this)
    {
      if sender != manager { return false; }
      cut := newCut;
      ok := true;
    }

    method CreateBountyProgram(sender: Address, name: AbiString, description: AbiString, image: AbiString) returns (ok: bool)
      requires Valid()
      modifies this
      ensures Valid()
      ensures ok == Contract.CreateBountyProgram(old(Snapshot()), sender, name, description, image).Approved?
      ensures ok ==> Snapshot() == Contract.CreateBountyProgram(old(Snapshot()), sender, name, description, image).next
      ensures !ok ==> unchanged(this)
    {
      if sender in programs { return false; }
      var verifiedDefault := false;
      var put := Contract.BoxPut(programs, sender, Contract.Program(name, description, verifiedDefault, image));
      if put.None? { return false; }
      programs := put.value;
      ok := true;
    }

    method VerifyProgram(sender: Address, program: Address) returns (output: Option<Contract.Program>)
      requires Valid()
      modifies this
      ensures Valid()
      ensures var r := Contract.VerifyProgram(old(Snapshot()), sender, program);
        output.Some? == r.Approved? && (r.Approved? ==> Snapshot() == r.next && output.value == r.output)
      ensures output.None? ==> unchanged(this)
    {
      if sender != manager { return None; }
      if program !in programs { return None; }
      if sender !in programs { return None; }
      var stored := programs[sender];
      var modified := Contract.Program(stored.name, stored.description, true, stored.image);
      var put := Contract.BoxPut(programs, program, modified);
      if put.None? { return None; }
      programs := put.value;
      output := Some(programs[sender]);
    }

    method EditProgram(sender: Address, name: AbiString, description: AbiString, image: AbiString)
      returns (output: Option<Contract.Program>)
      requires Valid()
      modifies this
      ensures Valid()
      ensures var r := Contract.EditProgram(old(Snapshot()), sender, name, description, image);
        output.Some? == r.Approved? && (r.Approved? ==> Snapshot() == r.next && output.value == r.output)
      ensures output.None? ==> unchanged(this)
    {
      if sender !in programs { return None; }
      var tmpVerified := programs[sender].verified;
      var put := Contract.BoxPut(programs, sender, Contract.Program(name, description, tmpVerified, image));
      if put.None? { return None; }
      programs := put.value;
      output := Some(programs[sender]);
    }

    method DeleteProgram(sender: Address) returns (ok: bool)
      requires Valid()
      modifies this
      ensures Valid()
      ensures ok == Contract.DeleteProgram(old(Snapshot()), sender).Approved?
      ensures ok ==> Snapshot() == Contract.DeleteProgram(old(Snapshot()), sender).next
      ensures !ok ==> unchanged(this)
    {
      if sender !in programs { return false; }
      programs := programs - {sender};
      ok := true;
    }

    method DeleteProgramAdmin(sender: Address, program: Address) returns (ok: bool)
      requires Valid()
      modifies this
      ensures Valid()
      ensures ok == Contract.DeleteProgramAdmin(old(Snapshot()), sender, program).Approved?
      ensures ok ==> Snapshot() == Contract.DeleteProgramAdmin(old(Snapshot()), sender, program).next
      ensures !ok ==> unchanged(this)
    {
      if sender != manager { return false; }
      if program !in programs { return false; }
      programs := programs - {program};
      ok := true;
    }

    method DeleteReport(sender: Address, foreignAssets: seq<AssetId>) returns (ok: bool)
      requires Valid()
      modifies this
      ensures Valid()
      ensures ok == Contract.DeleteReport(old(Snapshot()), sender, foreignAssets).Approved?
      ensures ok ==> Snapshot() == Contract.DeleteReport(old(Snapshot()), sender, foreignAssets).next
      ensures !ok ==> unchanged(this)
    {
      if |foreignAssets| == 0 { return false; }
      var id := foreignAssets[0];
      if !HoldsAsset(assets, app, id) { return false; }
      var reportFrom := AssetParam(assets, id, Freeze);
      var reportTo := AssetParam(assets, id, Reserve);
      var reportSelf := AssetParam(assets, id, Manager);
      if reportFrom.None? || reportTo.None? || reportSelf.None? { return false; }
      if !(reportFrom.value == sender || reportTo.value == sender) { return false; }
      if reportSelf.value != app { return false; }
      // A bare asset-config transaction naming only the asset destroys it.
      assets := assets - {id};
      ok := true;
    }

    method CreateReport(sender: Address, to: Address, description: AbiString) returns (output: Option<AssetId>)
      requires Valid()
      modifies this
      ensures Valid()
      ensures var r := Contract.CreateReport(old(Snapshot()), sender, to, description);
        output.Some? == r.Approved? && (r.Approved? ==> Snapshot() == r.next && output.value == r.output)
      ensures output.None? ==> unchanged(this)
    {
      if |description| == 0 { return None; }
      if to !in programs { return None; }
      var id := nextAssetId;
      assets := assets[id := Contract.ReportAsset(app, to, sender, description)];
      nextAssetId := id + 1;
      output := Some(id);
    }

    method CloseAndPayReport(sender: Address, foreignAssets: seq<AssetId>, payment: Contract.Payment, bountyNote: AbiString)
      returns (ok: bool)
      requires Valid()
      modifies this
      ensures Valid()
      ensures ok == Contract.CloseAndPayReport(old(Snapshot()), sender, foreignAssets, payment, bountyNote).Approved?
      ensures ok ==> Snapshot() == Contract.CloseAndPayReport(old(Snapshot()), sender, foreignAssets, payment, bountyNote).next
      ensures !ok ==> unchanged(this)
    {
      if |foreignAssets| == 0 { return false; }
      if |bountyNote| == 0 { return false; }
      var id := foreignAssets[0];
      var reportTo := AssetParam(assets, id, Reserve);
      var reportFrom := AssetParam(assets, id, Freeze);
      var reportSelf := AssetParam(assets, id, Manager);
      if reportTo.None? || reportFrom.None? || reportSelf.None? { return false; }
      if reportTo.value != sender || reportSelf.value != app { return false; }
      if reportTo.value !in programs { return false; }
      if payment.sender != sender || payment.receiver != app { return false; }
      // The grouped payment has been executed by the time the app runs.
      var funded := Transfer(balances, payment.sender, payment.receiver, payment.amount);
      if funded.None? { return false; }
      var bounty := Cuts.CalculateCut(payment.amount, cut);
      if bounty.None? { return false; }
      var paid := Transfer(funded.value, app, reportFrom.value, bounty.value);
      if paid.None? { return false; }
      balances := paid.value;
      assets := assets - {id};
      ok := true;
    }

    method Payday(sender: Address) returns (ok: bool)
      requires Valid()
      modifies this
      ensures Valid()
      ensures ok == Contract.Payday(old(Snapshot()), sender).Approved?
      ensures ok ==> Snapshot() == Contract.Payday(old(Snapshot()), sender).next
      ensures !ok ==> unchanged(this)
    {
      if sender != manager { return false; }
      var amount := Cuts.CalculateCut(BalanceOf(balances, app), cut);
      if amount.None? { return false; }
      var paid := Transfer(balances, app, creator, amount.value);
      if paid.None? { return false; }
      balances := paid.value;
      ok := true;
    }
  }
}
