/**
 * The decision logic of `ContractoriumPlatform` as pure transitions: each
 * external method maps the current state and its arguments either to
 * `Rejected` (some `Assert` failed, or the ledger refused an effect, and the
 * whole call reverts) or to the next state and the method's ABI output.
 */
module Contract {
  import opened Types
  import opened Ledger
  import Abi
  import Cuts

  /** A bug-bounty program record, as the contract builds it (four fields). */
  datatype Program = Program(name: AbiString, description: AbiString, verified: bool, image: AbiString)

  /**
   * Global state `manager` and `cut`, the `bounty_programs` boxes keyed by
   * address, and the ledger the contract acts on. `app` is the application's
   * own address and `creator` the account that deployed it.
   */
  datatype State = State(
    app: Address,
    creator: Address,
    manager: Address,
    cut: Uint64,
    programs: map<Address, Program>,
    assets: Assets,
    nextAssetId: AssetId,
    balances: Balances)

  /** The payment transaction grouped with a `close_and_pay_report` call. */
  datatype Payment = Payment(sender: Address, receiver: Address, amount: Uint64)

  /** The outcome of one application call. */
  datatype Outcome<+T> = Rejected | Approved(next: State, output: T)

  /** "BBRCntrm", the asset name and unit name of every report. */
  const ReportName: Bytes := [0x42, 0x42, 0x52, 0x43, 0x6e, 0x74, 0x72, 0x6d]

  /** A report minted by the app: one indivisible unit, administered and clawed back by the app. */
  predicate IsReport(a: Asset, app: Address) {
    && a.total == 1
    && a.decimals == 0
    && !a.defaultFrozen
    && a.assetName == ReportName
    && a.unitName == ReportName
    && a.manager == app
    && a.clawback == app
    && a.creator == app
  }

  /**
   * The state invariant: asset ids below the ledger's counter are the only
   * ones in use, and every asset the app created is a report.
   */
  ghost predicate Valid(s: State) {
    && (forall id :: id in s.assets ==> id < s.nextAssetId)
    && (forall id :: id in s.assets && s.assets[id].creator == s.app ==> IsReport(s.assets[id], s.app))
  }

  /** A freshly created application account has created no assets yet. */
  ghost predicate FreshDeployment(app: Address, assets: Assets, nextAssetId: AssetId) {
    forall id :: id in assets ==> id < nextAssetId && assets[id].creator != app
  }

  /** `create`: the global state takes its defaults, the manager being the creator, and no box exists. */
  function Create(app: Address, creator: Address, balances: Balances, assets: Assets, nextAssetId: AssetId): (s: State)
    requires FreshDeployment(app, assets, nextAssetId)
    ensures Valid(s)
    ensures s.manager == creator && s.cut == Cuts.DefaultCut && s.programs == map[]
    ensures s.app == app && s.creator == creator && s.assets == assets && s.balances == balances
  {
    State(app, creator, creator, Cuts.DefaultCut, map[], assets, nextAssetId, balances)
  }

  /** `Authorize.only(manager)`: the call's sender is the stored manager. */
  predicate Authorized(s: State, sender: Address) {
    sender == s.manager
  }

  /** The text fields of a program: everything but the verified flag. */
  predicate SameText(p: Program, q: Program) {
    p.name == q.name && p.description == q.description && p.image == q.image
  }

  /** The largest value a box can hold, in bytes. */
  const MaxBoxSize: nat := 32768

  /** The ABI encoding of a `bool` on its own: the high bit of one byte. */
  function EncodeBool(b: bool): Byte {
    if b then 0x80 else 0x00
  }

  /**
   * The ABI encoding of a program as the tuple (string, string, bool, string)
   * that a box stores: a 7-byte head (the offsets of the three strings and the
   * bool byte), then each string behind its 2-byte length prefix.
   */
  function EncodeProgram(p: Program): (b: Bytes)
    ensures |b| == 13 + |p.name| + |p.description| + |p.image|
  {
    var nameAt := 7;
    var descriptionAt := nameAt + 2 + |p.name|;
    var imageAt := descriptionAt + 2 + |p.description|;
    Abi.EncodeUint16(nameAt) + Abi.EncodeUint16(descriptionAt) + [EncodeBool(p.verified)]
      + Abi.EncodeUint16(imageAt)
      + Abi.EncodeString(p.name) + Abi.EncodeString(p.description) + Abi.EncodeString(p.image)
  }

  /** Reads a program record back: the head's offsets must delimit three well-formed strings. */
  function DecodeProgram(b: Bytes): Option<Program> {
    if |b| < 7 then None
    else
      var nameAt, descriptionAt, imageAt := Abi.ReadUint16(b, 0), Abi.ReadUint16(b, 2), Abi.ReadUint16(b, 5);
      if !(nameAt == 7 && nameAt <= descriptionAt <= imageAt <= |b|) || !(b[4] == 0x00 || b[4] == 0x80) then None
      else
        match (Abi.DecodeString(b[nameAt..descriptionAt]), Abi.DecodeString(b[descriptionAt..imageAt]), Abi.DecodeString(b[imageAt..]))
        case (Some(name), Some(description), Some(image)) => Some(Program(name, description, b[4] == 0x80, image))
        case _ => None
  }

  /** Every program record that fits in a box reads back as itself. */
  lemma DecodeEncodeProgram(p: Program)
    requires |EncodeProgram(p)| <= MaxBoxSize
    ensures DecodeProgram(EncodeProgram(p)) == Some(p)
  {
    var b := EncodeProgram(p);
    var nameAt := 7;
    var descriptionAt := nameAt + 2 + |p.name|;
    var imageAt := descriptionAt + 2 + |p.description|;
    var head := Abi.EncodeUint16(nameAt) + Abi.EncodeUint16(descriptionAt) + [EncodeBool(p.verified)] + Abi.EncodeUint16(imageAt);
    var n, d, i := Abi.EncodeString(p.name), Abi.EncodeString(p.description), Abi.EncodeString(p.image);
    assert b == head + n + d + i;
    assert b[0..2] == Abi.EncodeUint16(nameAt);
    assert b[2..4] == Abi.EncodeUint16(descriptionAt);
    assert b[5..7] == Abi.EncodeUint16(imageAt);
    assert Abi.ReadUint16(b, 0) == Abi.ReadUint16(b[0..2], 0) == nameAt;
    assert Abi.ReadUint16(b, 2) == Abi.ReadUint16(b[2..4], 0) == descriptionAt;
    assert Abi.ReadUint16(b, 5) == Abi.ReadUint16(b[5..7], 0) == imageAt;
    assert b[4] == EncodeBool(p.verified);
    assert b[nameAt..descriptionAt] == n;
    assert b[descriptionAt..imageAt] == d;
    assert b[imageAt..] == i;
    Abi.DecodeEncode(p.name);
    Abi.DecodeEncode(p.description);
    Abi.DecodeEncode(p.image);
  }

  /**
   * A box write (`Mapping[...].set`, the AVM's `box_put`): it creates a missing
   * box, and it overwrites an existing box only with a value of the same length.
   */
  function BoxPut(programs: map<Address, Program>, key: Address, p: Program): (r: Option<map<Address, Program>>)
    ensures r.Some? <==> key !in programs || |EncodeProgram(programs[key])| == |EncodeProgram(p)|
    ensures r.Some? ==> key in r.value && r.value[key] == p && r.value - {key} == programs - {key}
  {
    if key in programs && |EncodeProgram(programs[key])| != |EncodeProgram(p)| then None
    else Some(programs[key := p])
  }

  /** `resign_manager`: the manager hands the role to another address, effective at once. */
  function ResignManager(s: State, sender: Address, newManager: Address): (r: Outcome<()>)
    ensures r.Approved? <==> Authorized(s, sender)
    ensures r.Approved? ==> r.next.manager == newManager && r.next.(manager := s.manager) == s
  {
    if !Authorized(s, sender) then Rejected
    else Approved(s.(manager := newManager), ())
  }

  /** `set_cut`: the manager stores any uint64 as the rate; there is no range check. */
  function SetCut(s: State, sender: Address, newCut: Uint64): (r: Outcome<()>)
    ensures r.Approved? <==> Authorized(s, sender)
    ensures r.Approved? ==> r.next.cut == newCut && r.next.(cut := s.cut) == s
  {
    if !Authorized(s, sender) then Rejected
    else Approved(s.(cut := newCut), ())
  }

  /** `create_bounty_program`: an address without a program registers one, unverified. */
  function CreateBountyProgram(s: State, sender: Address, name: AbiString, description: AbiString, image: AbiString): (r: Outcome<()>)
    ensures r.Approved? <==> sender !in s.programs
    ensures r.Approved? ==>
      && sender in r.next.programs
      && r.next.programs[sender] == Program(name, description, false, image)
    ensures r.Approved? ==> r.next.programs - {sender} == s.programs - {sender}
    ensures r.Approved? ==> r.next.(programs := s.programs) == s
  {
    if sender in s.programs then Rejected
    else
      var verifiedDefault := false;
      match BoxPut(s.programs, sender, Program(name, description, verifiedDefault, image))
      case None => Rejected
      case Some(programs') => Approved(s.(programs := programs'), ())
  }

  /**
   * `verify_program`: the manager marks the target's program verified. As
   * written, the target's new text fields are read from the CALLER's own
   * box, which must exist; the output is the caller's box after the write.
   * The write fails unless the caller's record encodes to as many bytes as
   * the target's (always so when the manager verifies its own program).
   */
  function VerifyProgram(s: State, sender: Address, program: Address): (r: Outcome<Program>)
    ensures r.Approved? <==>
      && Authorized(s, sender) && program in s.programs && sender in s.programs
      && |EncodeProgram(s.programs[sender])| == |EncodeProgram(s.programs[program])|
    ensures r.Approved? ==>
      && program in r.next.programs
      && r.next.programs[program].verified
      && SameText(r.next.programs[program], s.programs[sender])
    ensures r.Approved? ==> r.next.programs - {program} == s.programs - {program}
    ensures r.Approved? ==> sender in r.next.programs && r.output == r.next.programs[sender]
    ensures r.Approved? ==> r.next.(programs := s.programs) == s
  {
    if !Authorized(s, sender) then Rejected
    else if program !in s.programs then Rejected
    else if sender !in s.programs then Rejected
    else
      var output := s.programs[sender];
      var modified := Program(output.name, output.description, true, output.image);
      match BoxPut(s.programs, program, modified)
      case None => Rejected
      case Some(programs') => Approved(s.(programs := programs'), programs'[sender])
  }

  /**
   * `edit_program`: an owner rewrites the text of its program; the verified
   * flag is kept. The box write fails unless the new texts have the same
   * total length as the stored ones.
   */
  function EditProgram(s: State, sender: Address, name: AbiString, description: AbiString, image: AbiString): (r: Outcome<Program>)
    ensures r.Approved? <==>
      && sender in s.programs
      && |name| + |description| + |image|
         == |s.programs[sender].name| + |s.programs[sender].description| + |s.programs[sender].image|
    ensures r.Approved? ==>
      && r.output == Program(name, description, s.programs[sender].verified, image)
      && sender in r.next.programs
      && r.next.programs[sender] == r.output
    ensures r.Approved? ==> r.next.programs - {sender} == s.programs - {sender}
    ensures r.Approved? ==> r.next.(programs := s.programs) == s
  {
    if sender !in s.programs then Rejected
    else
      var tmpVerified := s.programs[sender].verified;
      var modified := Program(name, description, tmpVerified, image);
      match BoxPut(s.programs, sender, modified)
      case None => Rejected
      case Some(programs') => Approved(s.(programs := programs'), programs'[sender])
  }

  /** Box delete of an existing key: the key is gone, every other key is untouched. */
  function DeleteBox(s: State, key: Address): (r: Outcome<()>)
    ensures r.Approved? <==> key in s.programs
    ensures r.Approved? ==> key !in r.next.programs && r.next.programs - {key} == s.programs - {key}
    ensures r.Approved? ==> r.next.(programs := s.programs) == s
  {
    if key !in s.programs then Rejected
    else Approved(s.(programs := s.programs - {key}), ())
  }

  /** `delete_program`: an owner deletes its own program. */
  function DeleteProgram(s: State, sender: Address): (r: Outcome<()>)
    ensures r.Approved? <==> sender in s.programs
    ensures r.Approved? ==> sender !in r.next.programs && r.next.programs - {sender} == s.programs - {sender}
    ensures r.Approved? ==> r.next.(programs := s.programs) == s
  {
    DeleteBox(s, sender)
  }

  /** `delete_program_admin`: the manager deletes any address's program. */
  function DeleteProgramAdmin(s: State, sender: Address, program: Address): (r: Outcome<()>)
    ensures r.Approved? <==> Authorized(s, sender) && program in s.programs
    ensures r.Approved? ==> program !in r.next.programs && r.next.programs - {program} == s.programs - {program}
    ensures r.Approved? ==> r.next.(programs := s.programs) == s
  {
    if !Authorized(s, sender) then Rejected
    else DeleteBox(s, program)
  }

  /** The asset a report mints: reserve = program owner, freeze = reporter, manager = clawback = app. */
  function ReportAsset(app: Address, to: Address, reporter: Address, description: AbiString): (a: Asset)
    ensures IsReport(a, app)
    ensures a.reserve == to && a.freeze == reporter && a.url == Abi.EncodeString(description)
  {
    Asset(
      total := 1, decimals := 0, defaultFrozen := false,
      unitName := ReportName, assetName := ReportName,
      url := Abi.EncodeString(description),
      manager := app, reserve := to, freeze := reporter, clawback := app,
      creator := app)
  }

  /**
   * `create_report`: anyone files a report against a registered program and
   * receives the id of the minted asset. Of the guard
   * `to.length() != 0 and description.length() != 0` only the second operand
   * reaches the program (Python's `and` on two expression objects yields the
   * second), so the only text check is a non-empty description.
   */
  function CreateReport(s: State, sender: Address, to: Address, description: AbiString): (r: Outcome<AssetId>)
    ensures r.Approved? <==> |description| != 0 && to in s.programs
    ensures r.Approved? ==>
      && r.output in r.next.assets
      && var a := r.next.assets[r.output];
      && a.total == 1 && a.decimals == 0
      && a.reserve == to && a.freeze == sender
      && a.manager == s.app && a.clawback == s.app
      && a.url == Abi.EncodeString(description)
    ensures r.Approved? && Valid(s) ==> r.output !in s.assets
    ensures r.Approved? && Valid(s) ==> forall id :: id in s.assets ==> id in r.next.assets && r.next.assets[id] == s.assets[id]
    ensures r.Approved? ==> r.next.assets - {r.output} == s.assets - {r.output}
    ensures r.Approved? ==> r.output == s.nextAssetId && r.next.nextAssetId == s.nextAssetId + 1
    ensures r.Approved? ==> r.next.(assets := s.assets, nextAssetId := s.nextAssetId) == s
  {
    if |description| == 0 then Rejected
    else if to !in s.programs then Rejected
    else
      var id := s.nextAssetId;
      var asset := ReportAsset(s.app, to, sender, description);
      Approved(s.(assets := s.assets[id := asset], nextAssetId := id + 1), id)
  }

  /**
   * `delete_report`: the reporter (freeze) or the program owner (reserve)
   * destroys a report the app holds and still manages. Nothing is paid.
   */
  function DeleteReport(s: State, sender: Address, foreignAssets: seq<AssetId>): (r: Outcome<()>)
    ensures r.Approved? <==>
      && |foreignAssets| > 0
      && var id := foreignAssets[0];
      && id in s.assets
      && s.assets[id].creator == s.app
      && (s.assets[id].freeze == sender || s.assets[id].reserve == sender)
      && s.assets[id].manager == s.app
    ensures r.Approved? ==>
      && foreignAssets[0] !in r.next.assets
      && r.next.assets - {foreignAssets[0]} == s.assets - {foreignAssets[0]}
    ensures r.Approved? ==> r.next.(assets := s.assets) == s
  {
    if |foreignAssets| == 0 then Rejected
    else
      var id := foreignAssets[0];
      if !HoldsAsset(s.assets, s.app, id) then Rejected
      else
        var reportFrom := AssetParam(s.assets, id, Freeze);
        var reportTo := AssetParam(s.assets, id, Reserve);
        var reportSelf := AssetParam(s.assets, id, Manager);
        if reportFrom.None? || reportTo.None? || reportSelf.None? then Rejected
        else if !(reportFrom.value == sender || reportTo.value == sender) then Rejected
        else if reportSelf.value != s.app then Rejected
        else Approved(s.(assets := s.assets - {id}), ())
  }

  /**
   * Every check `close_and_pay_report` makes on its arguments: an asset is
   * attached, the note is non-empty, the asset exists, its reserve is the
   * sender and has a program, the app manages it, and the grouped payment
   * comes from the sender and goes to the app.
   */
  predicate SettlementAuthorized(s: State, sender: Address, foreignAssets: seq<AssetId>, payment: Payment, note: AbiString) {
    && |foreignAssets| > 0
    && |note| != 0
    && var id := foreignAssets[0];
    && id in s.assets
    && s.assets[id].reserve == sender
    && s.assets[id].manager == s.app
    && s.assets[id].reserve in s.programs
    && payment.sender == sender
    && payment.receiver == s.app
  }

  /**
   * The balances after a settlement: the grouped payment moved `amount` from
   * its sender to its receiver, then the app paid `bounty` to the finder.
   */
  ghost predicate Settled(b: Balances, b': Balances, payment: Payment, app: Address, finder: Address, bounty: nat) {
    forall a: Address :: BalanceOf(b', a) as int ==
      BalanceOf(b, a) as int
      - (if a == payment.sender then payment.amount else 0) + (if a == payment.receiver then payment.amount else 0)
      - (if a == app then bounty else 0) + (if a == finder then bounty else 0)
  }

  /**
   * `close_and_pay_report`: the program owner settles a report. The grouped
   * payment is executed first, then the app pays `calculate_cut(amount, cut)`
   * to the reporter (the freeze address) and destroys the report asset with
   * a bare asset-config transaction. The remainder stays with the app.
   */
  function CloseAndPayReport(s: State, sender: Address, foreignAssets: seq<AssetId>, payment: Payment, note: AbiString): (r: Outcome<()>)
    ensures r.Approved? ==> SettlementAuthorized(s, sender, foreignAssets, payment, note)
    ensures r.Approved? ==>
      && Cuts.CalculateCut(payment.amount, s.cut).Some?
      && Settled(s.balances, r.next.balances, payment, s.app,
                 s.assets[foreignAssets[0]].freeze, Cuts.CalculateCut(payment.amount, s.cut).value)
    ensures r.Approved? ==>
      && foreignAssets[0] !in r.next.assets
      && r.next.assets - {foreignAssets[0]} == s.assets - {foreignAssets[0]}
    ensures r.Approved? ==> r.next.(balances := s.balances, assets := s.assets) == s
  {
    if |foreignAssets| == 0 then Rejected
    else if |note| == 0 then Rejected
    else
      var id := foreignAssets[0];
      var reportTo := AssetParam(s.assets, id, Reserve);
      var reportFrom := AssetParam(s.assets, id, Freeze);
      var reportSelf := AssetParam(s.assets, id, Manager);
      if reportTo.None? || reportFrom.None? || reportSelf.None? then Rejected
      else if reportTo.value != sender || reportSelf.value != s.app then Rejected
      else if reportTo.value !in s.programs then Rejected
      else if payment.sender != sender || payment.receiver != s.app then Rejected
      else
        match Transfer(s.balances, payment.sender, payment.receiver, payment.amount)
        case None => Rejected
        case Some(funded) =>
          match Cuts.CalculateCut(payment.amount, s.cut)
          case None => Rejected
          case Some(bounty) =>
            match Transfer(funded, s.app, reportFrom.value, bounty)
            case None => Rejected
            case Some(paid) => Approved(s.(balances := paid, assets := s.assets - {id}), ())
  }

  /** `payday`: the manager sweeps `calculate_cut(balance of the app, cut)` to the creator. */
  function Payday(s: State, sender: Address): (r: Outcome<()>)
    ensures r.Approved? ==> Authorized(s, sender)
    ensures r.Approved? ==>
      && Cuts.CalculateCut(BalanceOf(s.balances, s.app), s.cut).Some?
      && Moved(s.balances, r.next.balances, s.app, s.creator,
               Cuts.CalculateCut(BalanceOf(s.balances, s.app), s.cut).value)
    ensures r.Approved? ==> r.next.(balances := s.balances) == s
  {
    if !Authorized(s, sender) then Rejected
    else
      match Cuts.CalculateCut(BalanceOf(s.balances, s.app), s.cut)
      case None => Rejected
      case Some(amount) =>
        match Transfer(s.balances, s.app, s.creator, amount)
        case None => Rejected
        case Some(b) => Approved(s.(balances := b), ())
  }
}
