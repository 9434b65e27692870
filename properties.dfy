/**
 * Properties of the platform over sequences of application calls: the state
 * invariant, the single settlement of every report, authorization of the
 * manager-only calls, and the end-to-end payment scenarios.
 */
module Properties {
  import opened Types
  import opened Ledger
  import Cuts
  import opened Contract

  /** One application call of any of the external methods, with its sender and arguments. */
  datatype Call =
    | ResignManagerCall(sender: Address, newManager: Address)
    | SetCutCall(sender: Address, newCut: Uint64)
    | CreateBountyProgramCall(sender: Address, name: AbiString, description: AbiString, image: AbiString)
    | VerifyProgramCall(sender: Address, program: Address)
    | EditProgramCall(sender: Address, name: AbiString, description: AbiString, image: AbiString)
    | DeleteProgramCall(sender: Address)
    | DeleteProgramAdminCall(sender: Address, program: Address)
    | DeleteReportCall(sender: Address, foreignAssets: seq<AssetId>)
    | CreateReportCall(sender: Address, to: Address, description: AbiString)
    | CloseAndPayReportCall(sender: Address, foreignAssets: seq<AssetId>, payment: Payment, note: AbiString)
    | PaydayCall(sender: Address)

  function NextOf<T>(o: Outcome<T>): Option<State> {
    if o.Approved? then Some(o.next) else None
  }

  /** The state an approved call leaves, or None when the call is rejected. */
  function Step(s: State, c: Call): Option<State> {
    match c
    case ResignManagerCall(sender, newManager) => NextOf(ResignManager(s, sender, newManager))
    case SetCutCall(sender, newCut) => NextOf(SetCut(s, sender, newCut))
    case CreateBountyProgramCall(sender, name, description, image) =>
      NextOf(CreateBountyProgram(s, sender, name, description, image))
    case VerifyProgramCall(sender, program) => NextOf(VerifyProgram(s, sender, program))
    case EditProgramCall(sender, name, description, image) => NextOf(EditProgram(s, sender, name, description, image))
    case DeleteProgramCall(sender) => NextOf(DeleteProgram(s, sender))
    case DeleteProgramAdminCall(sender, program) => NextOf(DeleteProgramAdmin(s, sender, program))
    case DeleteReportCall(sender, foreignAssets) => NextOf(DeleteReport(s, sender, foreignAssets))
    case CreateReportCall(sender, to, description) => NextOf(CreateReport(s, sender, to, description))
    case CloseAndPayReportCall(sender, foreignAssets, payment, note) =>
      NextOf(CloseAndPayReport(s, sender, foreignAssets, payment, note))
    case PaydayCall(sender) => NextOf(Payday(s, sender))
  }

  /** A rejected call reverts, so the state after it is the state before. */
  function After(s: State, c: Call): State {
    match Step(s, c)
    case Some(t) => t
    case None => s
  }

  /** The state after a sequence of calls, each approved or reverted in turn. */
  function Run(s: State, calls: seq<Call>): State
    decreases |calls|
  {
    if calls == [] then s else Run(After(s, calls[0]), calls[1..])
  }

  /** The calls `Authorize.only(manager)` guards. */
  predicate ManagerOnly(c: Call) {
    c.ResignManagerCall? || c.SetCutCall? || c.VerifyProgramCall? || c.DeleteProgramAdminCall? || c.PaydayCall?
  }

  /** Every manager-only call from any other sender is rejected. */
  lemma ManagerOnlyCallsRejectOthers(s: State, c: Call)
    requires ManagerOnly(c) && c.sender != s.manager
    ensures Step(s, c).None?
  {
  }

  /** The manager and the rate change only through the manager's own `resign_manager` and `set_cut`. */
  lemma ConfigurationChangesOnlyByManager(s: State, c: Call)
    requires After(s, c).manager != s.manager || After(s, c).cut != s.cut
    ensures c.ResignManagerCall? || c.SetCutCall?
    ensures c.sender == s.manager
  {
  }

  /** Balances move only in a settlement or a payday. */
  lemma OnlySettlementAndPaydayMoveFunds(s: State, c: Call)
    requires After(s, c).balances != s.balances
    ensures c.CloseAndPayReportCall? || c.PaydayCall?
  {
  }

  /** Every call keeps the state invariant. */
  lemma StepPreservesValid(s: State, c: Call)
    requires Valid(s)
    ensures Valid(After(s, c))
  {
  }

  /** Every sequence of calls keeps the state invariant. */
  lemma {:induction false} RunPreservesValid(s: State, calls: seq<Call>)
    requires Valid(s)
    ensures Valid(Run(s, calls))
    decreases |calls|
  {
    if calls != [] {
      StepPreservesValid(s, calls[0]);
      RunPreservesValid(After(s, calls[0]), calls[1..]);
    }
  }

  /** An asset that existed before a call and still exists after it has the same parameters. */
  lemma StepKeepsAssets(s: State, c: Call, id: AssetId)
    requires Valid(s)
    requires id in s.assets && id in After(s, c).assets
    ensures After(s, c).assets[id] == s.assets[id]
  {
  }

  /** An id that was used and is no longer in the table stays out of it after a call; ids are never reused. */
  lemma StepKeepsDestroyed(s: State, c: Call, id: AssetId)
    requires id < s.nextAssetId && id !in s.assets
    ensures id < After(s, c).nextAssetId && id !in After(s, c).assets
  {
  }

  /** A destroyed report stays destroyed whatever calls follow. */
  lemma {:induction false} RunKeepsDestroyed(s: State, calls: seq<Call>, id: AssetId)
    requires id < s.nextAssetId && id !in s.assets
    ensures id < Run(s, calls).nextAssetId && id !in Run(s, calls).assets
    decreases |calls|
  {
    if calls != [] {
      StepKeepsDestroyed(s, calls[0], id);
      RunKeepsDestroyed(After(s, calls[0]), calls[1..], id);
    }
  }

  /**
   * A live asset's parameters never change, whatever calls are made; for a
   * report these are its program owner, reporter and app authority.
   */
  lemma {:induction false} RunKeepsReportParties(s: State, calls: seq<Call>, id: AssetId)
    requires Valid(s) && id in s.assets
    ensures id in Run(s, calls).assets ==> Run(s, calls).assets[id] == s.assets[id]
    decreases |calls|
  {
    if calls != [] {
      var t := After(s, calls[0]);
      StepPreservesValid(s, calls[0]);
      if id in t.assets {
        StepKeepsAssets(s, calls[0], id);
        RunKeepsReportParties(t, calls[1..], id);
      } else {
        RunKeepsDestroyed(t, calls[1..], id);
      }
    }
  }

  /** Neither a settlement nor a deletion can act on a destroyed report. */
  lemma DestroyedReportIsInert(t: State, sender: Address, foreignAssets: seq<AssetId>, payment: Payment, note: AbiString)
    requires |foreignAssets| > 0 && foreignAssets[0] !in t.assets
    ensures CloseAndPayReport(t, sender, foreignAssets, payment, note).Rejected?
    ensures DeleteReport(t, sender, foreignAssets).Rejected?
  {
  }

  /**
   * No double payout: once a report is settled, no later settlement or
   * deletion of the same asset succeeds, whatever calls come in between.
   */
  lemma NoSecondSettlement(
    s: State, sender: Address, foreignAssets: seq<AssetId>, payment: Payment, note: AbiString,
    between: seq<Call>,
    sender': Address, foreignAssets': seq<AssetId>, payment': Payment, note': AbiString)
    requires Valid(s)
    requires CloseAndPayReport(s, sender, foreignAssets, payment, note).Approved?
    requires |foreignAssets'| > 0 && foreignAssets'[0] == foreignAssets[0]
    ensures var t := Run(CloseAndPayReport(s, sender, foreignAssets, payment, note).next, between);
      && CloseAndPayReport(t, sender', foreignAssets', payment', note').Rejected?
      && DeleteReport(t, sender', foreignAssets').Rejected?
  {
    var settled := CloseAndPayReport(s, sender, foreignAssets, payment, note).next;
    RunKeepsDestroyed(settled, between, foreignAssets[0]);
    DestroyedReportIsInert(Run(settled, between), sender', foreignAssets', payment', note');
  }

  /** A deleted report can never be settled (or deleted again) afterwards. */
  lemma NoSettlementAfterDeletion(
    s: State, sender: Address, foreignAssets: seq<AssetId>,
    between: seq<Call>,
    sender': Address, foreignAssets': seq<AssetId>, payment': Payment, note': AbiString)
    requires Valid(s)
    requires DeleteReport(s, sender, foreignAssets).Approved?
    requires |foreignAssets'| > 0 && foreignAssets'[0] == foreignAssets[0]
    ensures var t := Run(DeleteReport(s, sender, foreignAssets).next, between);
      && CloseAndPayReport(t, sender', foreignAssets', payment', note').Rejected?
      && DeleteReport(t, sender', foreignAssets').Rejected?
  {
    var deleted := DeleteReport(s, sender, foreignAssets).next;
    RunKeepsDestroyed(deleted, between, foreignAssets[0]);
    DestroyedReportIsInert(Run(deleted, between), sender', foreignAssets', payment', note');
  }

  /** Whether a call deletes the program registered under `owner`. */
  predicate DeletesProgramOf(c: Call, owner: Address) {
    c == DeleteProgramCall(owner) || (c.DeleteProgramAdminCall? && c.program == owner)
  }

  /** A registered program stays registered until a call deletes it. */
  lemma {:induction false} ProgramPersists(s: State, calls: seq<Call>, owner: Address)
    requires owner in s.programs
    requires forall i :: 0 <= i < |calls| ==> !DeletesProgramOf(calls[i], owner)
    ensures owner in Run(s, calls).programs
    decreases |calls|
  {
    if calls != [] {
      assert !DeletesProgramOf(calls[0], owner);
      assert owner in After(s, calls[0]).programs;
      ProgramPersists(After(s, calls[0]), calls[1..], owner);
    }
  }

  /** A second `create_bounty_program` from the same address fails unless a deletion came in between. */
  lemma SecondProgramRejected(
    s: State, sender: Address, name: AbiString, description: AbiString, image: AbiString,
    between: seq<Call>, name': AbiString, description': AbiString, image': AbiString)
    requires CreateBountyProgram(s, sender, name, description, image).Approved?
    requires forall i :: 0 <= i < |between| ==> !DeletesProgramOf(between[i], sender)
    ensures CreateBountyProgram(Run(CreateBountyProgram(s, sender, name, description, image).next, between),
                                sender, name', description', image').Rejected?
  {
    ProgramPersists(CreateBountyProgram(s, sender, name, description, image).next, between, sender);
  }

  /**
   * `verify_program` leaves the target's text as it was exactly when the
   * caller's own text is the same, in particular when the manager verifies
   * its own program; otherwise the caller's text replaces the target's.
   */
  lemma VerifyKeepsTextOnlyWhenCallerTextMatches(s: State, sender: Address, program: Address)
    requires VerifyProgram(s, sender, program).Approved?
    ensures SameText(VerifyProgram(s, sender, program).next.programs[program], s.programs[program])
        <==> SameText(s.programs[sender], s.programs[program])
    ensures sender == program ==> SameText(VerifyProgram(s, sender, program).next.programs[program], s.programs[program])
  {
  }

  /** The manager can always verify its own program: the rewritten record is as long as the stored one. */
  lemma VerifyOwnProgramAlwaysFits(s: State)
    requires s.manager in s.programs
    ensures VerifyProgram(s, s.manager, s.manager).Approved?
    ensures VerifyProgram(s, s.manager, s.manager).next.programs[s.manager]
         == s.programs[s.manager].(verified := true)
  {
  }

  /**
   * At a rate of at most 100% a settlement that passes every check of the
   * contract and whose grouped payment the ledger accepts is approved: the
   * app can always cover the bounty. The reporter receives exactly the cut,
   * never more than the payment.
   */
  lemma SettlementSucceedsAtValidRate(s: State, sender: Address, foreignAssets: seq<AssetId>, payment: Payment, note: AbiString)
    requires SettlementAuthorized(s, sender, foreignAssets, payment, note)
    requires CanTransfer(s.balances, payment.sender, payment.receiver, payment.amount)
    requires s.cut <= Cuts.BasisPointMultiplier
    requires var finder := s.assets[foreignAssets[0]].freeze;
      finder == s.app || BalanceOf(s.balances, finder) + payment.amount <= MaxUint64
    ensures CloseAndPayReport(s, sender, foreignAssets, payment, note).Approved?
    ensures Cuts.CalculateCut(payment.amount, s.cut).value <= payment.amount
  {
    Cuts.CutWithinAmount(payment.amount, s.cut);
    var finder := s.assets[foreignAssets[0]].freeze;
    var funded := Transfer(s.balances, payment.sender, payment.receiver, payment.amount).value;
    var bounty := Cuts.CalculateCut(payment.amount, s.cut).value;
    assert BalanceOf(funded, s.app) >= payment.amount;
    assert finder != s.app ==> BalanceOf(funded, finder) <= BalanceOf(s.balances, finder);
    assert CanTransfer(funded, s.app, finder, bounty);
  }

  /** At a rate of at most 100%, `payday` by the manager never overdraws the app. */
  lemma PaydaySucceedsAtValidRate(s: State)
    requires s.cut <= Cuts.BasisPointMultiplier
    requires s.creator == s.app || BalanceOf(s.balances, s.creator) + BalanceOf(s.balances, s.app) <= MaxUint64
    ensures Payday(s, s.manager).Approved?
    ensures Cuts.CalculateCut(BalanceOf(s.balances, s.app), s.cut).value <= BalanceOf(s.balances, s.app)
  {
    Cuts.CutWithinAmount(BalanceOf(s.balances, s.app), s.cut);
  }

  /**
   * After `set_cut(0)` every approved settlement pays the reporter nothing:
   * the whole payment stays with the app, to be swept by `payday`.
   */
  lemma ZeroCutKeepsWholePayment(s: State, sender: Address, foreignAssets: seq<AssetId>, payment: Payment, note: AbiString)
    requires CloseAndPayReport(SetCut(s, s.manager, 0).next, sender, foreignAssets, payment, note).Approved?
    ensures var t := SetCut(s, s.manager, 0).next;
      Moved(t.balances, CloseAndPayReport(t, sender, foreignAssets, payment, note).next.balances,
            payment.sender, t.app, payment.amount)
  {
    Cuts.CutAtZeroRate(payment.amount);
  }

  /**
   * End to end: a program owner registers, a reporter files a report against
   * it, and the owner settles it with a payment of 1000 at the default rate.
   * The reporter receives 980, the app keeps 20, the owner has paid 1000, the
   * report asset is gone and the program is still registered.
   */
  lemma BountyScenario(
    s: State, owner: Address, reporter: Address,
    name: AbiString, description: AbiString, image: AbiString, report: AbiString, note: AbiString)
    requires Valid(s) && s.cut == Cuts.DefaultCut
    requires owner !in s.programs
    requires owner != reporter && owner != s.app && reporter != s.app
    requires |report| != 0 && |note| != 0
    requires BalanceOf(s.balances, owner) >= 1000
    requires BalanceOf(s.balances, s.app) + 1000 <= MaxUint64
    requires BalanceOf(s.balances, reporter) + 980 <= MaxUint64
    ensures var s1 := CreateBountyProgram(s, owner, name, description, image);
      && s1.Approved?
      && var s2 := CreateReport(s1.next, reporter, owner, report);
      && s2.Approved?
      && var s3 := CloseAndPayReport(s2.next, owner, [s2.output], Payment(owner, s.app, 1000), note);
      && s3.Approved?
      && BalanceOf(s3.next.balances, reporter) == BalanceOf(s.balances, reporter) + 980
      && BalanceOf(s3.next.balances, s.app) == BalanceOf(s.balances, s.app) + 20
      && BalanceOf(s3.next.balances, owner) == BalanceOf(s.balances, owner) - 1000
      && s2.output !in s3.next.assets
      && s3.next.programs[owner] == Program(name, description, false, image)
  {
    Cuts.CutAtDefaultRate();
    var s1 := CreateBountyProgram(s, owner, name, description, image).next;
    var s2 := CreateReport(s1, reporter, owner, report);
    var payment := Payment(owner, s.app, 1000);
    assert SettlementAuthorized(s2.next, owner, [s2.output], payment, note);
    var s3 := CloseAndPayReport(s2.next, owner, [s2.output], payment, note);
    assert s3.Approved?;
  }
}
