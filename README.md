# Contractorium bug-bounty platform, modelled in Dafny

Contractorium is an Algorand application for bug bounties. Program owners
register bounty programs in boxes keyed by their address. A researcher files a
report against a program, and the app mints a one-unit asset for it. The asset's
parameter slots record who is involved: reserve = program owner, freeze =
reporter, manager = clawback = the app. The program owner settles a report with
a grouped payment. The app pays the reporter `calculate_cut(amount, cut)` and
destroys the report asset; the rest of the payment stays with the app. The
manager can hand over the role, set the rate, verify or delete any program, and
sweep revenue to the creator with `payday`.

The project has seven modules:

- `Types` (types.dfy): `Option`, `Uint64`, `Byte`, ABI strings (at most 65535 bytes) and 32-byte addresses.
- `Abi` (abi.dfy): the ABI `string` encoding, which `description.encode()` produces for the report's URL.
- `Cuts` (cuts.dfy): `calculate_cut`, i.e. `WideRatio([amount, cut], [10000])`, and its arithmetic properties.
- `Ledger` (ledger.dfy): balances, the asset table, `AssetParam` reads, the app's asset holding, and payments that fail on insufficient funds or uint64 overflow.
- `Contract` (contract.dfy): the platform state and one pure transition per external method. Each transition returns `Rejected` (the call reverts) or the next state and the ABI output.
- `Application` (platform.dfy): the class `ContractoriumPlatform`. Its fields are the state. Each method runs the source's checks in order, then writes the fields. Each method is proved to agree with its transition and to leave every field unchanged when it returns failure.
- `Properties` (properties.dfy): call sequences (`Run`), the state invariant, single settlement of every report, authorization, and end-to-end scenarios.

Every call is one atomic decision. The grouped payment of `close_and_pay_report`
is part of the same atomic step: if anything fails, nothing moves.

## Notable behaviour of the code as written (the model follows it)

- `verify_program` writes the caller's own name, description and image into the target, not the target's. It fails when the caller has no program. Its output is the caller's record.
- `close_and_pay_report` and `delete_report` end with a bare asset-config transaction. That destroys the report asset. The asset is not transferred to the program owner, and no authority is handed over.
- There are no refund branches. Every failed check rejects the whole call, including the grouped payment.
- `set_cut` accepts any uint64. Above 10000 a payout can exceed the payment (`Cuts.CutAboveFullRateExceedsAmount`). The call then fails only when `WideRatio` overflows, the app lacks the funds, or the reporter's balance would pass 2^64-1.
- `create_report` checks only that the description is non-empty. The `to.length() != 0 and ...` operand never reaches the program, and an address is always 32 bytes anyway.
- `delete_report` requires the app to hold the asset, the sender to be its reporter or its program owner, and the app to be its manager. There is no `delete_report_admin`.
- Writing a box (`Mapping[...].set`) is the AVM's `box_put`, which cannot change the length of an existing box. A program record (string, string, bool, string) encodes to 13 bytes plus its three text lengths. So `edit_program` fails when the new texts' total length differs from the stored one, and `verify_program` fails when the caller's text length differs from the target's.
- A program record has four fields: name, description, verified, image. `mappings.py` declares only the first two.
- `payday` pays the creator (`Global.creator_address()`), not the current manager.
- On the AVM, `AssetParam.<field>(id).hasValue()` is true exactly when the asset exists. An unset slot reads as the zero address. So the three `hasValue` checks in a call all amount to "the asset exists".

## Model

| member | source | states |
|---|---|---|
| `Cuts.CalculateCut` | utils/cuts.py:6-9 | the result is the floor of amount*cut/10000 (bracketed between multiples of 10000), and it exists exactly when that quotient fits in a uint64 |
| `Cuts.CutWithinAmount` | utils/cuts.py:9 | at a rate of at most 10000 the cut always exists and never exceeds the amount |
| `Cuts.CutFailsOnlyAboveFullRate` | utils/cuts.py:9 | `WideRatio` can fail only when the rate is above 10000 |
| `Cuts.CutOfZeroAmount` | utils/cuts.py:9 | an amount of 0 gives 0 |
| `Cuts.CutAtZeroRate` | utils/cuts.py:9 | a rate of 0 gives 0 |
| `Cuts.CutAtFullRate` | utils/cuts.py:3-9 | a rate of 10000 = 100*100 gives the whole amount |
| `Cuts.CutAtDefaultRate` | contract.py:48-50 | at the default rate 9800 an amount of 1000 gives 980 |
| `Cuts.CutMonotoneInAmount` | utils/cuts.py:9 | for a fixed rate, a smaller amount never yields a larger cut and never fails where the larger succeeds |
| `Cuts.CutMonotoneInRate` | utils/cuts.py:9 | for a fixed amount, a smaller rate never yields a larger cut and never fails where the larger succeeds |
| `Cuts.CutAboveFullRateExceedsAmount` | contract.py:91-98 | since `set_cut` has no range check, a rate above 10000 pays more than the amount once amount >= 10000 |
| `Abi.EncodeString` | contract.py:204 | the encoding is the content behind a two-byte prefix, two bytes longer than the content |
| `Abi.DecodeEncode` | contract.py:204 | decoding an encoded string gives it back |
| `Abi.EncodeDecode` | contract.py:204 | every byte string that decodes is the encoding of its decoding |
| `Ledger.AssetParam` | contract.py:227-234 | an asset-parameter read has a value exactly when the asset exists |
| `Ledger.HoldsAsset` | contract.py:171-172 | `AssetHolding.balance(app, id).hasValue()`: holding an asset implies it exists, and an asset's creator always holds it (opt-ins are not modelled) |
| `Ledger.Transfer` | contract.py:246-251 | a payment succeeds exactly when the sender's funds cover it and the receiver's balance stays a uint64; it moves the amount from sender to receiver and leaves every other balance alone |
| `Ledger.TransferConserves` | contract.py:246-251 | a payment keeps the sum of the two balances it touches |
| `Contract.Create` | contract.py:44-60 | a fresh deployment satisfies the invariant; the manager is the creator, the cut is 9800 and no program exists |
| `Contract.ResignManager` | contract.py:82-89 | approved exactly when the sender is the manager; then the manager is the argument and nothing else changes |
| `Contract.SetCut` | contract.py:91-98 | approved exactly when the sender is the manager; then any uint64 becomes the cut, and nothing else changes |
| `Contract.CreateBountyProgram` | contract.py:100-118 | approved exactly when the sender has no program; then the sender's box holds (name, description, false, image), and no other key or field changes |
| `Contract.EncodeProgram` | contract.py:116 | `BountyProgram().set(...)`: the ABI tuple (string, string, bool, string) with a 7-byte head of offsets and the bool byte, then the three encoded strings; it is 13 bytes plus the three text lengths long |
| `Contract.DecodeEncodeProgram` | contract.py:129 | `store_into` reads back what `set` wrote: every record that fits in a 32768-byte box decodes from its encoding to itself, offsets and verified flag included |
| `Contract.BoxPut` | contract.py:117 | a box write creates a missing box, and overwrites an existing one only with a value of the same encoded length; it changes that key only |
| `Contract.VerifyProgram` | contract.py:120-136 | approved exactly when the sender is the manager, both target and caller have programs, and the caller's record encodes to as many bytes as the target's (the box write's rule); then the target is verified and carries the caller's text, other keys are untouched, and the output is the caller's stored record |
| `Contract.EditProgram` | contract.py:138-149 | approved exactly when the sender has a program and the new texts have the same total length as the stored ones (the box write's rule); then the stored verified flag is kept, the text is the arguments, and the output is exactly the new stored record |
| `Contract.DeleteBox` | contract.py:155-156 | deleting an existing box removes that key only; deleting a missing one fails |
| `Contract.DeleteProgram` | contract.py:151-157 | approved exactly when the sender has a program; then that key is gone and nothing else changes |
| `Contract.DeleteProgramAdmin` | contract.py:159-165 | approved exactly when the sender is the manager and the key exists; then that key is gone and nothing else changes |
| `Contract.ReportAsset` | contract.py:194-206 | a minted report is one indivisible unit with reserve = program owner, freeze = reporter, manager = clawback = app, and the encoded description as URL |
| `Contract.CreateReport` | contract.py:188-209 | approved exactly when the description is non-empty and `to` has a program; then the output is a fresh id holding a report with the right parties, and every existing asset is unchanged |
| `Contract.DeleteReport` | contract.py:167-186 | approved exactly when an asset is attached, the app holds it, the sender is its freeze or reserve address and the app manages it; then only that asset is gone and no balance moves |
| `Contract.CloseAndPayReport` | contract.py:211-257 | an approved settlement passed every check: asset attached, note non-empty, reserve == sender with a program, manager == app, payment from the sender to the app; the payment moved, the reporter received exactly `calculate_cut(amount, cut)` from the app, and only that asset is gone |
| `Contract.Payday` | contract.py:259-268 | an approved payday was called by the manager and moved exactly `calculate_cut(app balance, cut)` from the app to the creator, where the app balance is `Balance(app)` (`Ledger.BalanceOf`: the stored balance, 0 for an account without one); nothing else changes |
| `Application.ContractoriumPlatform.constructor` | contract.py:57-60 | the new object's state is the initial state and satisfies the invariant |
| `Application.ContractoriumPlatform.ResignManager` | contract.py:82-89 | the method agrees with `Contract.ResignManager` and changes nothing when it fails |
| `Application.ContractoriumPlatform.SetCut` | contract.py:91-98 | the method agrees with `Contract.SetCut` and changes nothing when it fails |
| `Application.ContractoriumPlatform.CreateBountyProgram` | contract.py:100-118 | the method agrees with `Contract.CreateBountyProgram` and changes nothing when it fails |
| `Application.ContractoriumPlatform.VerifyProgram` | contract.py:120-136 | the method agrees with `Contract.VerifyProgram`, state and output, and changes nothing when it fails |
| `Application.ContractoriumPlatform.EditProgram` | contract.py:138-149 | the method agrees with `Contract.EditProgram`, state and output, and changes nothing when it fails |
| `Application.ContractoriumPlatform.DeleteProgram` | contract.py:151-157 | the method agrees with `Contract.DeleteProgram` and changes nothing when it fails |
| `Application.ContractoriumPlatform.DeleteProgramAdmin` | contract.py:159-165 | the method agrees with `Contract.DeleteProgramAdmin` and changes nothing when it fails |
| `Application.ContractoriumPlatform.DeleteReport` | contract.py:167-186 | the method agrees with `Contract.DeleteReport` and changes nothing when it fails |
| `Application.ContractoriumPlatform.CreateReport` | contract.py:188-209 | the method agrees with `Contract.CreateReport`, state and returned id, and changes nothing when it fails |
| `Application.ContractoriumPlatform.CloseAndPayReport` | contract.py:211-257 | the method agrees with `Contract.CloseAndPayReport` and changes nothing, balances included, when it fails |
| `Application.ContractoriumPlatform.Payday` | contract.py:259-268 | the method agrees with `Contract.Payday` and changes nothing when it fails |
| `Properties.ManagerOnlyCallsRejectOthers` | contract.py:82-268 | `Authorize.only(manager)` (the predicate `Contract.Authorized`, sender == stored manager): every call it guards (resign_manager, set_cut, verify_program, delete_program_admin, payday) is rejected for any other sender |
| `Properties.ConfigurationChangesOnlyByManager` | contract.py:82-98 | the manager and the cut change only through the manager's own resign_manager or set_cut |
| `Properties.OnlySettlementAndPaydayMoveFunds` | contract.py:246-268 | only close_and_pay_report and payday change any balance |
| `Properties.StepPreservesValid` | contract.py:194-206 | every call keeps the invariant: asset ids in use are below the ledger's counter, and every asset the app created is a one-unit report it manages |
| `Properties.RunPreservesValid` | contract.py:194-206 | every sequence of calls keeps that invariant |
| `Properties.StepKeepsAssets` | contract.py:182-185 | no call reconfigures an existing asset; an asset is only ever created or destroyed |
| `Properties.StepKeepsDestroyed` | contract.py:252-255 | a destroyed asset id stays out of the table after any call, because new ids come from the counter |
| `Properties.RunKeepsDestroyed` | contract.py:252-255 | a destroyed report stays destroyed whatever calls of the external methods follow |
| `Properties.RunKeepsReportParties` | contract.py:194-206 | the parameters of any live asset never change, whatever calls of the external methods are made; for a report that means its program owner, reporter and app authority |
| `Properties.DestroyedReportIsInert` | contract.py:227-234 | settling or deleting a destroyed report fails its `hasValue` checks |
| `Properties.NoSecondSettlement` | contract.py:227-255 | after a settlement no later settlement or deletion of the same asset succeeds, whatever calls of the external methods come in between: no double payout |
| `Properties.NoSettlementAfterDeletion` | contract.py:171-185 | after a deletion the report can never be settled or deleted again by any later calls of the external methods |
| `Properties.ProgramPersists` | contract.py:151-165 | a registered program stays registered until delete_program by its owner or delete_program_admin on it |
| `Properties.SecondProgramRejected` | contract.py:114 | a second create_bounty_program from the same address fails unless a deletion came in between |
| `Properties.VerifyKeepsTextOnlyWhenCallerTextMatches` | contract.py:127-134 | verify_program keeps the target's text exactly when the caller's text already equals it, in particular when target == caller |
| `Properties.VerifyOwnProgramAlwaysFits` | contract.py:128-134 | the manager's verification of its own program always passes the box write's length rule and only sets the verified flag |
| `Properties.SettlementSucceedsAtValidRate` | contract.py:241-251 | at a rate of at most 10000, a settlement that passes every check, whose payment the ledger accepts, and whose reporter's balance cannot pass 2^64−1 by the payout, is approved; the app can always cover a payout that never exceeds the payment |
| `Properties.PaydaySucceedsAtValidRate` | contract.py:263-267 | at a rate of at most 10000 the manager's payday is approved when the creator's balance cannot pass 2^64−1 by the payout, and it never takes more than the app's balance |
| `Properties.ZeroCutKeepsWholePayment` | contract.py:245-250 | after set_cut(0) an approved settlement pays the reporter nothing; the whole payment stays with the app |
| `Properties.BountyScenario` | contract.py:100-255 | at the default rate, register, report and settle with a payment of 1000: the reporter gains 980, the app 20, the owner pays 1000, the report is gone and the program stays |

## Left out

- `opt_in` and `close_out` (contract.py:72-80) always reject, so they change nothing.
- `delete` and `update` (contract.py:62-70) approve for the manager only. Both are left out because their effect is on the application itself: `update` replaces the approval program and so every later decision, and `delete` removes the app. Every property over call sequences (`Properties.Run`, and with it `RunPreservesValid`, `RunKeepsDestroyed`, `RunKeepsReportParties`, `NoSecondSettlement`, `NoSettlementAfterDeletion`, `ProgramPersists`, `SecondProgramRejected`) holds only for runs with no approved `update` or `delete` in between.
- `Properties.Run` interleaves only calls of this app. Other ledger transactions between them are not modelled: payments among other accounts, assets created by other accounts, and reconfiguration of foreign assets by their own managers. The call-sequence properties are stated for states reached by this app's calls alone.
- `Contract.EncodeProgram`: a head offset past 65535 keeps only its low 16 bits. Such a record has no valid ABI encoding and does not fit in a box, so the round trip `Contract.DecodeEncodeProgram` is stated for records of at most 32768 bytes.
- The constants `MaxMembers` and `MinimumBalance` (contract.py:54-55): nothing reads them.
- `utils/deploy.py`: it is deployment tooling (network client, signer, printing), not decision logic.
- Fees, minimum balances, box storage cost, signature checking and the ledger's size limits are not modelled. The box rule that a rewrite must keep the length is modelled (`Contract.BoxPut`). The 32768-byte maximum box size is not enforced by any transition (it only bounds the round trip `Contract.DecodeEncodeProgram`); a call's arguments are limited to 2048 bytes, far below it. Two such limits are the 96-byte maximum of an asset URL, which could make `create_report` fail on a long description, and the 1024-byte maximum of a transaction note, which could make `close_and_pay_report` fail on a long `bounty_note` (its encoding, with the 2-byte prefix, is the payout's note).
- ABI argument decoding and type checks of the grouped transaction are not modelled. Arguments arrive as well-formed values.
- Opt-ins: an account holds an asset in this model exactly when it created it. So `AssetHolding.balance(app, id)` in delete_report exists exactly for assets the app created.
- Destroying an asset: the ledger's rule that the creator must hold the whole supply is not modelled. Destruction is modelled as removing the asset, given the app is its manager. For every report the app mints, the single unit never leaves the app in this core.
- The asset ids the ledger assigns are modelled as a counter owned by the state (`nextAssetId`). The ledger shares that counter with other objects; here only freshness matters.
- The payout's note field and the name/unit-name bytes of other assets are not recorded as effects. Balances are the only effect of a payment.
- Transfer of the report to the program owner, revocation of the app's authority, and refund branches: the code has none of them (see above).
