# Verified model of the Integritee parachain runtime and node

The project models the hand-written logic of the parachain and proves properties of it
over all inputs and all runs:

- **Cross-chain TEER** (`Locations`, `Ledger`, `Assets`, `Executor`, `Conservation`,
  `Backing`, `Bridge`, `TwoChains`, `Threshold`, `RoundTrip`, `Effects`, `ErrorHandling`,
  `MessageWeight`): the native-currency converter, the reserve map and the
  executor wiring, as a small-step machine with a ledger, sovereign accounts, a holding
  register, trapped assets, error handlers, appendices and an outbox. No message creates
  TEER, and the TEER held on another chain is covered by that chain's sovereign account up
  to what is lost as dust; what is sent does arrive, and can be sent back and paid out.
  The other chain is any sibling that keeps the reserve contract (`Bridge`); one that runs
  the same configuration with another para id, as the shell runtime does, is shown to be an
  instance (`TwoChains`). What a message weighs bounds all it can do (`MessageWeight`).
- **Entry barrier** (`Barrier`, `NestedBarrier`): deny, then try, and what that means for
  the runs of the messages let through.
- **Lazy consensus switch** (`LazyCell`, `Consensus`, `SharedConsensus`, `BlockTree`): the
  self-overwriting cell as a class, the author and the verifier that own or share it,
  every interleaving of tasks on clones, and the block trees that collators and an
  importing node build with cells of their own and an api answer for every single query.
- **Fees** (`FeeSplit`, `WeightFee`): the treasury split and the weight polynomial.
- **Authority** (`ProxyTypes`, `Quorum`): proxy types against their order and delegation
  runs; council and committee thresholds, with the votes counted by default at closing.
- **Weights** (`Weights`): saturating weight expressions.

`Prelude` holds shared types. Check everything with `dafny verify dfyconfig.toml`.

## Findings

- The reserve map answers "here" for TEER, so a message whose origin is the chain's own
  location would be believed when it reports a deposit of TEER. Supply is conserved for
  every other origin and can be raised from this one: `InflationIffHere` is an
  if-and-only-if. This is a boundary of the reserve map, not a message the chain is shown
  to receive: signed origins become account locations and the queues deliver from the
  parent or a sibling.
- Reserve backing can fail from the very first message. Start with nothing owed and no
  sovereign account for the other chain: if a third chain pays for a message that sends
  the other chain one unit, the deposit into the missing account is lost as dust, while
  the other chain is told about it (`FirstUnitUncovers`). Every run from such a start stays
  covered if and only if the existential deposit is at most one unit
  (`CoveredFromStartIff`).
- In general a surplus suffices exactly when it is at least the existential deposit
  (`SurplusThreshold`), and with one unit less a return trip ends uncovered
  (`ReturnTripUncovers`). Without any surplus the shortfall is never more than the dust
  lost at home (`ShortfallIsDust`).
- Both written forms of TEER are withdrawn and deposited alike, but only the relative form
  buys execution; an offer in the absolute form is refused after it has left the holding
  register (`BuyingIsExact`).
- The deny rule scans top-level instructions only. A reserve transfer to the relay chain
  that is wrapped into an appendix passes this rule and, once the allow rule takes the
  message, is sent on any chain and from any origin
  (`WrappedPassesAndSends`). A scan of some number of levels protects all messages of a
  given nesting if and only if it looks deeper than they nest, so the deny rule protects
  exactly messages that set neither error handler nor appendix (`ProtectsIffDeeper`).
- The weight fee is not always within half a unit above, or weight / 10^9 and half a unit
  below, the exact rational. Each bound holds for all 64-bit weights if and only if the
  parts per billion do not overshoot, or lose at most one part (`FeeIsSharpIff`). At base
  weight 113,638,000 the lower bound fails (`ReductionShows`), there even with a whole unit
  to spare, and at 107,923,517 the upper one (`OvershootShows`).
- `EnsureRootOrMoreThanHalfTechnicalCommittee` accepts exactly half, against its name.
  On an even member set two disjoint halves can both pass (`CommitteeCanSplit`).
- At the end of the voting period the prime's aye counts for every member who did not vote.
  So among three or more members an explicit majority can pass one council motion and the
  prime alone another (`CouncilSplitsIff`), and the prime alone can meet the unanimous
  origin of the committee if nobody votes nay (`UnanimousIff`).
- A failing api query counts as an absent api for that call. One such failure behind an
  Aura block takes its branch back to the relay-chain engine and makes author and importer
  disagree, though the api is there (`OneErrorUndoesTheSwitch`).

## Assumed contracts

Library code that the repository only configures is modelled by what it does at the
versions pinned in `Cargo.lock`:

- `RelativeReserveProvider` returns "here" for a path without parents that does not start
  with a chain, and the chain part otherwise; `MultiNativeAsset` compares the reserve with the origin.
- The currency adapter withdraws, deposits and transfers native currency with the
  existential-deposit behaviour of the balances pallet: reaping below the deposit, and a
  deposit below it into a missing account is lost. Locks and reserves are not modelled;
  they only make more withdrawals fail.
- The executor does not roll back a failing instruction: assets it has already taken out of
  holding are dropped. The trader sells one unit of weight for one unit of `SelfReserve`.
- The weigher asks one unit of weight for every instruction, those of nested error handlers
  and appendices included. The executor counts as surplus what a failing program did not
  reach, what a handler that was not needed weighs, and what a replaced handler or appendix
  weighs. The end of a message refunds the surplus as far as it fits, then drops the
  remaining fees and traps what is left.
- The holding register refuses to grow beyond twice its limit; an instruction that fails
  for this reason loses what it has already withdrawn, claimed or refunded.
- Parts per billion built from a rational first divide both numbers by the factor that
  brings the denominator down to a billion; every division there rounds down. When
  multiplied they round to nearest, halves down. `ration(1, 99)` gives the first part the floor of one hundredth.
- The mutexes do not poison: a panic releases the lock.
- A motion with enough ayes closes at once, one that can no longer get enough is
  disapproved, and any other waits for the end of the voting period, where the members who
  did not vote are counted by the default: the prime's vote for the council, an explicit
  majority or the prime's vote for the committee. A threshold below two executes at once on
  the proposer's vote.
- The proxy pallet lets a delegate change grants only within its own type.
- Account ids of signers never equal the sovereign account of a para id.

## Model

| member | source | states |
|---|---|---|
| Locations.ConverterIsExact | polkadot-parachains/integritee-runtime/src/xcm_config.rs:104-135 | currency to location and back is the identity; of all locations of any depth exactly two, which differ, are the native token |
| Locations.ConverterSpeaksAbroad | polkadot-parachains/integritee-runtime/src/xcm_config.rs:104-114 | every chain under the relay chain resolves the location given out to this chain's universal path and the token's key; it resolves the relative form to that only if it is this chain |
| Locations.KeyIsText | polkadot-parachains/integritee-runtime/src/xcm_config.rs:66-71 | the key is the text TEER with length 4, filled up with digits to 32 bytes |
| Locations.ChainsShareOnlyTheRelativeForm | polkadot-parachains/shell-runtime/src/xcm_config.rs:115-133 | two chains with different para ids both accept a location if and only if it is the relative form |
| Locations.BothWritingsAgree | polkadot-parachains/integritee-runtime/src/xcm_config.rs:207-227 | a path written relatively or through the own para id names the same currency, and has the same reserve if and only if it does not start with a chain junction |
| Locations.NativeIsReservedHere | polkadot-parachains/integritee-runtime/src/xcm_config.rs:213-227 | every asset the converter accepts has reserve here, so exactly the local origin is its reserve |
| Locations.SiblingReservesIff | polkadot-parachains/integritee-runtime/src/xcm_config.rs:213-227 | another sibling is the reserve of exactly the assets whose resolved absolute path lies below it, as long as the location does not climb out of the consensus system; equally, those with one parent and its para id first |
| Locations.HereReservesIff | polkadot-parachains/integritee-runtime/src/xcm_config.rs:213-227 | the chain itself is the reserve of exactly what resolves to a path below it, except chains written as its children |
| Locations.OtherReservesIff | polkadot-parachains/integritee-runtime/src/xcm_config.rs:269 | of all other origins exactly the relay chain, for what is below no chain, and a child chain, for what is written below it |
| Locations.ReanchorKeepsMeaning | polkadot-parachains/integritee-runtime/src/xcm_config.rs:73-76 | rewriting a location for a target, in the context of the universal location, never changes the absolute place it denotes |
| Locations.SimplifyIsShortest | polkadot-parachains/integritee-runtime/src/xcm_config.rs:73-76 | no other way of writing the same place has fewer steps up than the rewritten one |
| Locations.ReanchorFailsIff | polkadot-parachains/integritee-runtime/src/xcm_config.rs:73-76 | rewriting fails if and only if the plainly rewritten location has more than eight junctions or 255 parents, or the target is more than eight levels up |
| Locations.TeerLeavesAsAbsolute | polkadot-parachains/integritee-runtime/src/xcm_config.rs:104-135 | either written form of TEER reaches a sibling as the one absolute form |
| Locations.OnlyAbsoluteComesHome | polkadot-parachains/integritee-runtime/src/xcm_config.rs:117-135 | a sibling's location is recognised as native after coming back if and only if it is that absolute form |
| Ledger.LedgerConserves | polkadot-parachains/integritee-runtime/src/xcm_config.rs:169-181 | withdraw, deposit and transfer change the total, dust included, by exactly their amount |
| Ledger.OneAccount | polkadot-parachains/integritee-runtime/src/xcm_config.rs:169-181 | a withdrawal goes through if and only if the balance covers it; it and a deposit leave the account with the exact balance, or reaped below the existential deposit, and touch no other |
| Ledger.TwoAccounts | polkadot-parachains/integritee-runtime/src/xcm_config.rs:169-181 | a transfer between two accounts goes through if and only if the payer covers it and the payee ends at the existential deposit at least; the payee gets all of it |
| Ledger.SovereignAccountsAreDistinct | polkadot-parachains/integritee-runtime/src/xcm_config.rs:160-167 | different para ids have different sovereign accounts, none equal to the relay chain's |
| Ledger.AccountLayouts | polkadot-parachains/integritee-runtime/src/xcm_config.rs:160-167 | a sovereign account is the text sibl, the id in four bytes and zeros, the relay chain's the text Parent and zeros |
| Ledger.WhoHasAnAccount | polkadot-parachains/integritee-runtime/src/xcm_config.rs:160-167 | exactly the relay chain, siblings and signers of this network have an account, and which |
| Ledger.WhoReachesSovereign | polkadot-parachains/integritee-runtime/src/xcm_config.rs:160-167 | exactly the sibling, the relay chain, the chain itself and a signer of that account can act as a sibling's sovereign account, descents included |
| Conservation.ExecuteConserves | polkadot-parachains/integritee-runtime/src/xcm_config.rs:263-288 | every instruction run from a remote origin, succeeding or failing part-way, a full holding register included, keeps the native supply |
| Conservation.RunConserves | polkadot-parachains/integritee-runtime/src/xcm_config.rs:263-288 | over every run of messages from any origin but here, interleaved with signed transfers, the supply is constant |
| Conservation.RunsContainMessages | polkadot-parachains/integritee-runtime/src/xcm_config.rs:263-288 | these runs contain every message on every idle chain step by step, and every transfer the ledger allows |
| Conservation.InflationIffHere | polkadot-parachains/integritee-runtime/src/xcm_config.rs:269-270 | no message of an origin can change the supply on any chain state if and only if the origin is not the chain itself |
| Conservation.HereInflates | polkadot-parachains/integritee-runtime/src/xcm_config.rs:269 | one message from here reporting a deposit adds any chosen amount to the supply |
| Conservation.BuyingIsExact | polkadot-parachains/integritee-runtime/src/xcm_config.rs:274 | a purchase succeeds if and only if holding covers the offer, the offer is the relative form and covers the weight, and the change finds room; an absolute offer is destroyed |
| Effects.PurchaseEffect | polkadot-parachains/integritee-runtime/src/xcm_config.rs:274 | a successful purchase keeps as fees exactly the weight bought and gives the change of the offer back |
| Backing.ExecuteCovers | polkadot-parachains/integritee-runtime/src/xcm_config.rs:160-181 | every instruction at home keeps the sovereign account, measured beyond its cushion or together with the dust, above what is owed plus what the running message may still draw or announce |
| Backing.ExecuteHeld | polkadot-parachains/shell-runtime/src/xcm_config.rs:260-285 | every instruction on the other chain adds derivatives only on the word of the home chain, and gives up as many as it announces for withdrawal |
| Bridge.AnySiblingBacked | polkadot-parachains/integritee-runtime/src/xcm_config.rs:263-274 | against every sibling that credits at most what messages expose to it and gives up what it announces as withdrawn: from any state with the cushion, in every reachable state the sovereign account covers its derivatives, promises and messages in flight both ways |
| Bridge.AnySiblingShortfall | polkadot-parachains/integritee-runtime/src/xcm_config.rs:263-274 | from any state with any surplus, the start with nothing owed included, what is owed later exceeds the sovereign account by no more than the dust lost at home since, less that surplus |
| Bridge.OwedStaysWithinSupply | polkadot-parachains/integritee-runtime/src/xcm_config.rs:263-274 | over every such run, cushion or not, the home supply is unchanged and never less than what is owed |
| TwoChains.RunSimulates | polkadot-parachains/shell-runtime/src/xcm_config.rs:260-285 | every run of two chains with this configuration is a run against a sibling that keeps the contract |
| TwoChains.ReserveBacking | polkadot-parachains/integritee-runtime/src/xcm_config.rs:263-274 | the backing with the cushion, for every run of the two chains instruction by instruction |
| TwoChains.ShortfallIsDust | polkadot-parachains/integritee-runtime/src/xcm_config.rs:263-274 | the dust bound for every run of the two chains |
| TwoChains.OwedStaysWithinSupply | polkadot-parachains/integritee-runtime/src/xcm_config.rs:263-274 | over every run of the two chains the home supply is unchanged and never less than what is owed |
| TwoChains.OutsidersAct | polkadot-parachains/integritee-runtime/src/xcm_config.rs:263-288 | these runs let other chains start any message on an idle chain, and any signed transfer happen that the ledger allows |
| RoundTrip.DepositArrives | polkadot-parachains/integritee-runtime/src/xcm_config.rs:269 | what home takes out of holding for a sibling arrives there: one message, whose first step credits exactly as many derivatives |
| RoundTrip.TransferArrives | polkadot-parachains/integritee-runtime/src/xcm_config.rs:269 | so does what home transfers straight out of an account |
| RoundTrip.TeleportIsAnnounced | polkadot-parachains/integritee-runtime/src/xcm_config.rs:263-288 | a teleport out announces exactly the native amount it takes out of holding, in the one absolute form |
| RoundTrip.RecallIsHonouredIff | polkadot-parachains/integritee-runtime/src/xcm_config.rs:160-181 | asked by the other chain for an amount, home brings exactly that into holding if the sovereign account has it, and nothing otherwise |
| RoundTrip.TripCompletes | polkadot-parachains/shell-runtime/src/xcm_config.rs:260-285 | from every state with both chains idle, an amount can be sent over and back and paid to any account: queues, what is owed and the sovereign account end as before, and only payer and payee change |
| Threshold.SurplusThreshold | polkadot-parachains/integritee-runtime/src/lib.rs:221 | an initial surplus keeps every run covered if and only if it is at least the existential deposit (or that deposit is at most one unit) |
| Threshold.AnySiblingThreshold | polkadot-parachains/integritee-runtime/src/lib.rs:221 | the same threshold, if and only if, for runs against every sibling that keeps the reserve contract |
| Threshold.ReturnTripUncovers | polkadot-parachains/integritee-runtime/src/lib.rs:221 | with one unit less than the existential deposit to spare, five events lead to an uncovered state |
| Threshold.FirstUnitUncovers | polkadot-parachains/integritee-runtime/src/lib.rs:221 | from every start with nothing owed and no sovereign account, one paid message of a third chain with TEER leads to an uncovered state |
| Threshold.CoveredFromStartIff | polkadot-parachains/integritee-runtime/src/lib.rs:221 | every run from every such start stays covered if and only if the existential deposit is at most one unit |
| Backing.DepositsAreAnnounced | polkadot-parachains/integritee-runtime/src/xcm_config.rs:104-135 | native assets reserve-transferred to a sibling are announced there as exactly as many derivatives, in whichever form they were written |
| Backing.WithdrawalsAreCovered | polkadot-parachains/shell-runtime/src/xcm_config.rs:260-285 | derivatives announced for withdrawal at home have left the holding register, unit for unit |
| Effects.WithdrawalsDebitTheOrigin | polkadot-parachains/integritee-runtime/src/xcm_config.rs:169-181 | a completed withdrawal debits only the origin's account, by exactly what enters holding, apart from a reaped remainder |
| Effects.DepositsCreditTheBeneficiary | polkadot-parachains/integritee-runtime/src/xcm_config.rs:169-181 | a completed deposit credits only the beneficiary with exactly what left holding, apart from amounts too small to create the account |
| Effects.TransfersMoveTheAmount | polkadot-parachains/integritee-runtime/src/xcm_config.rs:169-181 | a completed transfer touches two accounts and moves exactly its amount |
| Effects.WithdrawalSucceedsIff | polkadot-parachains/integritee-runtime/src/xcm_config.rs:169-181 | an asset is withdrawn if and only if it is native, the origin has an account with as much, and fewer than 128 entries are held |
| Effects.DepositsSucceedIff | polkadot-parachains/integritee-runtime/src/xcm_config.rs:169-181 | a deposit succeeds if and only if there is nothing to deposit, or all is native and the beneficiary has an account |
| Effects.TransferSucceedsIff | polkadot-parachains/integritee-runtime/src/xcm_config.rs:169-181 | a transfer of one asset succeeds if and only if it is native, both have accounts, and the ledger allows it |
| Effects.ReportsSucceedIff | polkadot-parachains/integritee-runtime/src/xcm_config.rs:269 | reported deposits are believed if and only if the origin is the reserve of all of them and they find room, and then credited in full |
| Effects.SendingSucceedsIff | polkadot-parachains/integritee-runtime/src/xcm_config.rs:149-158 | the four sending instructions succeed if and only if the router delivers and their assets can be moved and rewritten |
| Effects.PlainOutcomes | polkadot-parachains/integritee-runtime/src/xcm_config.rs:263-288 | outcomes of the instructions with nothing to look up; no teleported asset is ever accepted |
| Assets.TakeIsExact | polkadot-parachains/integritee-runtime/src/xcm_config.rs:281 | a definite filter takes of every asset the smaller of what it names and what is held, and leaves the rest |
| Assets.SubsumeStaysSorted | polkadot-parachains/integritee-runtime/src/xcm_config.rs:281 | a register in key order stays so, with one entry for each asset |
| Effects.ClaimIsExact | polkadot-parachains/integritee-runtime/src/xcm_config.rs:277-281 | a claim succeeds if and only if this origin has exactly these assets trapped, the ticket is well formed and holding has room; it removes one entry and returns what it held, and without room the native remainder is destroyed |
| Effects.TicketIsGoodIff | polkadot-parachains/integritee-runtime/src/xcm_config.rs:277-278 | a ticket is well formed if and only if it is here or a plain index |
| Effects.TrapThenClaim | polkadot-parachains/integritee-runtime/src/xcm_config.rs:277-281 | what a message leaves in holding after the final refund can be claimed back in full by its origin, undoing the trap, if and only if it fits an empty register, as every holding within the limit does |
| Effects.FinishRefunds | polkadot-parachains/integritee-runtime/src/xcm_config.rs:274-277 | with room in the register the end of a message traps the holding and the smaller of fees and surplus, burns exactly the other fees, and touches no account |
| ErrorHandling.HandlerRunsIff | polkadot-parachains/integritee-runtime/src/xcm_config.rs:263-288 | a program with a handler goes on with it if and only if one of its instructions fails, and otherwise comes to its end with the handler unused |
| ErrorHandling.AppendixRuns | polkadot-parachains/integritee-runtime/src/xcm_config.rs:263-288 | the appendix of a message runs in any case, whatever fails in program or handler |
| ErrorHandling.LeftoversBelongToTheSender | polkadot-parachains/integritee-runtime/src/xcm_config.rs:277-278 | what is left when a message has given its origin up can be claimed in full by its sender |
| MessageWeight.WeightIsAccountedFor | polkadot-parachains/integritee-runtime/src/xcm_config.rs:273 | at every point of every run, executed instructions, surplus handed back and weight still due add up to the weight of the message, handlers and appendices included |
| MessageWeight.EveryMessageEnds | polkadot-parachains/integritee-runtime/src/xcm_config.rs:273 | every message ends within two steps for each unit of its weight and one more, whatever fails on the way |
| Barrier.ScanReserveTransfers | polkadot-parachains/common/src/xcm_config.rs:35-70 | the scan refuses exactly the messages holding a reserve transfer to the parent, and warns exactly about accepted deposits reported by the relay chain |
| NestedBarrier.DeniedIffSends | polkadot-parachains/common/src/xcm_config.rs:41-55 | told by what is sent: exactly the refused instructions can send the relay chain a message that withdraws from it as reserve or reports a reserve deposit to it, but for transfers of assets native nowhere |
| NestedBarrier.SendsAtMostOne | polkadot-parachains/common/src/xcm_config.rs:41-55 | on every chain and from every origin an instruction sends one message or none, and one of these only if it is refused |
| Barrier.Pending.ShouldExecute | polkadot-parachains/common/src/xcm_config.rs:17-31 | message, credit and verdict after the call are those of the deny rule if it refuses and of the allow rule on what it left otherwise |
| Barrier.BarrierIsExact | polkadot-parachains/integritee-runtime/src/xcm_config.rs:237-247 | for every allow rule the barrier accepts exactly messages without top-level reserve transfer to the parent that the rule accepts; a refusal leaves everything untouched whatever the allow rule |
| Barrier.DenyIsOrderFree | polkadot-parachains/common/src/xcm_config.rs:36-70 | the deny verdict ignores order and origin and distributes over concatenation |
| Barrier.NestingIsCombining | polkadot-parachains/common/src/xcm_config.rs:17-31 | nesting is associative for all rules and, for state-preserving deny rules, equals one barrier with the combined rule over every queue of messages, final credit included |
| Barrier.PassAllIsNeutral | polkadot-parachains/common/src/xcm_config.rs:17-31 | combined with the rule that passes everything, on either side, a rule is itself, with whatever it rewrites |
| NestedBarrier.NowhereIsHarmless | polkadot-parachains/common/src/xcm_config.rs:36-70 | a message without a reserve transfer to the parent at any depth never puts such a message into the outbox, on any chain, from any origin, after any number of steps |
| NestedBarrier.WrappedPassesAndSends | polkadot-parachains/common/src/xcm_config.rs:41-55 | a transfer wrapped into one appendix passes the scan, and three steps later a message to the parent is sent |
| NestedBarrier.ProtectsIffDeeper | polkadot-parachains/common/src/xcm_config.rs:36-70 | no run of a message with a given nesting that a scan of some levels admits puts such a message into the outbox if and only if there are more levels than the nesting; the scan of the source is the one of one level |
| LazyCell.BuildOnAccess.GetMut | polkadot-parachains/src/service.rs:418-434 | returns within two turns, takes two exactly when it builds successfully, and leaves the state and result of one access |
| LazyCell.FreshCellRun | polkadot-parachains/src/service.rs:418-434 | over any number of accesses the builder runs at most once; the cell ends without builder exactly after a panic, otherwise every caller gets the one value |
| LazyCell.EmptyCellFails | polkadot-parachains/src/service.rs:427-429 | an access fails if and only if the cell has no builder or one that panics; without builder it fails forever |
| Consensus.WaitForAuraConsensus.Clone | polkadot-parachains/src/service.rs:445-454 | a clone is a new object sharing the same cell and relay-chain engine |
| Consensus.WaitForAuraConsensus.ProduceCandidate | polkadot-parachains/src/service.rs:463-488 | the engine chosen by the answer, the relay-chain one or the cell's, serves the request after all earlier ones, the other is untouched, cell and builds change as one access does and only then, and a failing access panics the task |
| Consensus.Verifier.Verify | polkadot-parachains/src/service.rs:505-519 | the same for the verifier that owns its cell: which verifier serves, that the other is unchanged, the cell, the builds and exactly when it panics |
| SharedConsensus.EveryInterleaving | polkadot-parachains/src/service.rs:438-489 | over every interleaving on clones: one build at most and only with an api present, exact locks, one shared engine, requests served exactly once and earlier work kept |
| SharedConsensus.FromTheStart | polkadot-parachains/src/service.rs:438-489 | from the initial state, no two tasks are past the Aura lock together, all finished Aura tasks used the same engine, and only a panicking builder crashes a task |
| SharedConsensus.NobodyIsStuck | polkadot-parachains/src/service.rs:463-488 | from every reachable state every task that was not cancelled can still end, whoever holds the locks, and crashes if and only if it asked for Aura and the builder panics |
| BlockTree.FailsIffBuilderPanics | polkadot-parachains/src/service.rs:505-519 | after any run an import with imported parent fails if and only if the api is answered to be there and the verifier's builder panics, and authoring on a known parent by the same rule for its collator |
| BlockTree.CheckedByAuthorIffAnswersAgree | polkadot-parachains/src/service.rs:505-519 | over every run, with cells, panics and an answer per query: every imported block is checked by its author's engine if and only if the two answers for it are equivalent; if answers are honest, if and only if errors strike both or neither wherever the api is there |
| BlockTree.CatchesUpIff | polkadot-parachains/src/service.rs:505-519 | after any run, importing what was authored in its order leaves nothing behind if and only if the verifier's builder returns or no remaining block has the api answered to be there |
| BlockTree.SwitchOnceIffNoLateError | polkadot-parachains/src/service.rs:463-488 | over every run all paths are relay-chain blocks followed by Aura blocks if and only if no child of an Aura block misses the api; with honest answers and a persistent api, if and only if no author of such a child got an error |
| BlockTree.OneErrorUndoesTheSwitch | polkadot-parachains/src/service.rs:463-488 | a run with the api everywhere and one failing query: one child of an Aura block goes back, its sibling does not, and the importer checks it by another engine than its author's |
| FeeSplit.Runtime.OnUnbalanceds | polkadot-parachains/integritee-runtime/src/lib.rs:132-150 | a live treasury gains the tip and one percent of the fee, short of it by less than one unit, any treasury that or nothing; everything else of every item is burned, issuance plus burned is constant |
| FeeSplit.EveryChargeSequence | polkadot-parachains/integritee-runtime/src/lib.rs:132-150 | over every sequence of charges issuance plus burned is constant, books stay balanced, and no treasury gains more than the shares of the paid batches |
| FeeSplit.TreasuryGetsTipsAndOnePercent | polkadot-parachains/integritee-runtime/src/lib.rs:132-150 | over every sequence, told by the items alone: a live treasury gains all tips of the paid batches and one percent of their fees, short by at most 99 hundredths for each |
| FeeSplit.ChargedKeeps | polkadot-parachains/integritee-runtime/src/lib.rs:137-147 | a paid charge fails to credit the treasury if and only if the treasury does not exist and its part is positive and below the existential deposit |
| FeeSplit.RoundingLoss | polkadot-parachains/integritee-runtime/src/lib.rs:140 | cumulative fees minus a hundred treasury shares stay within 0 and 99 per extrinsic |
| FeeSplit.SplittingAFee | polkadot-parachains/integritee-runtime/src/lib.rs:137-146 | splitting a fee over N extrinsics never gives the treasury more than one lump charge and costs it at most 99 N / 100, so at most N - 1 units |
| FeeSplit.SplittingACharge | polkadot-parachains/integritee-runtime/src/lib.rs:132-150 | the same for what is really charged: single-fee batches against one lump charge of the same payers |
| FeeSplit.SplittingBoundIsTight | polkadot-parachains/integritee-runtime/src/lib.rs:140 | for every N that loss is reached |
| WeightFee.FeeNeverSaturates | polkadot-parachains/common/src/fee.rs:31-45 | for every 64-bit weight and positive base weight no capped operation takes effect |
| WeightFee.OneTerm | polkadot-parachains/common/src/fee.rs:31-45 | a term of any degree and sign is the exact power and products cut off once, added or subtracted with the sum cut off at both ends |
| WeightFee.RationalError | polkadot-parachains/common/src/fee.rs:41 | parts per billion times the denominator miss the exact product by less than one denominator, rounding down only, up to a billion, and by at most one above or two below when a reduction is needed |
| WeightFee.FeeIsNearExact | polkadot-parachains/common/src/fee.rs:31-45 | the fee is at most weight / 10^9 and half a unit above and at most 2 weight / 10^9 and half a unit below the exact rational; at most half a unit above if the parts do not overshoot, at most weight / 10^9 and half a unit below if they lose at most one, and both without reduction |
| WeightFee.SharpBoundsIff | polkadot-parachains/common/src/fee.rs:31-45 | for every base weight and weights of any size, each of the two sharper bounds on the uncapped fee holds for all weights if and only if its condition on the parts does |
| WeightFee.FeeIsSharpIff | polkadot-parachains/common/src/fee.rs:31-45 | the same for the fee itself and all 64-bit weights |
| WeightFee.ReductionShows | polkadot-parachains/common/src/fee.rs:31-45 | base weight 113,638,000 loses more than one part, and a weight of 2 * 10^10 is below even weight / 10^9 and a whole unit |
| WeightFee.OvershootShows | polkadot-parachains/common/src/fee.rs:31-45 | base weight 107,923,517 overshoots, and a weight of 10^12 is more than half a unit above |
| WeightFee.FeeIsMonotone | polkadot-parachains/common/src/fee.rs:31-45 | a larger weight never has a smaller fee |
| WeightFee.SplittingAWeight | polkadot-parachains/common/src/fee.rs:31-45 | splitting a weight into N parts changes the total fee by at most (N + 1) / 2 units, so by at most one for two parts |
| ProxyTypes.FilterFollowsPurpose | polkadot-parachains/integritee-runtime/src/lib.rs:314-349 | against a classification of all pallets by purpose: each type allows exactly the purposes it is meant for, and no type but Any a transfer of currency |
| ProxyTypes.SupersetIsExact | polkadot-parachains/integritee-runtime/src/lib.rs:314-359 | one type is a superset of another if and only if its filter allows every call the other's filter allows |
| ProxyTypes.SupersetIsPartialOrder | polkadot-parachains/integritee-runtime/src/lib.rs:350-358 | the order is reflexive, antisymmetric and transitive with Any on top |
| ProxyTypes.DelegationNeverEscalates | polkadot-parachains/integritee-runtime/src/lib.rs:314-359 | over every sequence of acts by delegates, a call allowed in the end was allowed by some original grant |
| ProxyTypes.NothingMovesWithoutAny | polkadot-parachains/integritee-runtime/src/lib.rs:290-348 | over every sequence of acts that starts without a grant of type Any, no act dispatches a call that moves currency, votes or wraps others |
| ProxyTypes.DelegationReaches | polkadot-parachains/integritee-runtime/src/lib.rs:314-359 | by acts of any number a grant of one type can lead to one of another if and only if they are equal, the first is Any, or the first is NonTransfer and the second is not Any |
| ProxyTypes.DismissalIsExact | polkadot-parachains/integritee-runtime/src/lib.rs:350-358 | a grant disappears if and only if a delegate whose type covers it names it, or one of type Any clears them all |
| ProxyTypes.ChainNeverEscalates | polkadot-parachains/integritee-runtime/src/lib.rs:350-358 | along a chain guarded by the order the last type allows nothing the first does not |
| Quorum.ThresholdsAreExact | polkadot-parachains/integritee-runtime/src/lib.rs:618-659 | without the fractions: the council accepts exactly the vote sets that meet every set of their own size, the committee exactly those that meet every larger one, the unanimous origin exactly those that leave nobody out |
| Quorum.RootAlwaysPasses | polkadot-parachains/integritee-runtime/src/lib.rs:618-659 | Root passes all three and an unrelated origin none |
| Quorum.PassingIff | polkadot-parachains/integritee-runtime/src/lib.rs:612-659 | when a motion passes each of the three at closing, by its votes, threshold, prime and rule alone |
| Quorum.CouncilMajoritiesMeet | polkadot-parachains/integritee-runtime/src/lib.rs:618-621 | two vote sets on one member set that the council origin accepts as they are share a member |
| Quorum.CouncilMotionsMeet | polkadot-parachains/integritee-runtime/src/lib.rs:612-621 | with default votes, two passing council motions have a common aye unless a majority without the prime carries one and the prime's default the other |
| Quorum.CouncilSplitsIff | polkadot-parachains/integritee-runtime/src/lib.rs:612-621 | two council motions without a common aye can both pass if and only if the prime is one of three or more members |
| Quorum.CommitteeSplitsIff | polkadot-parachains/integritee-runtime/src/lib.rs:645-654 | for the committee if and only if so, or the number of members is even and not zero |
| Quorum.UnanimousIff | polkadot-parachains/integritee-runtime/src/lib.rs:645-659 | a closed motion meets the unanimous origin if and only if all voted aye within the threshold, or nobody voted nay, the ayes are short of a threshold that all together reach, and the default is aye |
| Quorum.CommitteeCanSplit | polkadot-parachains/integritee-runtime/src/lib.rs:651-654 | two disjoint vote sets accepted as they are exist if and only if the size is even, and then each is exactly half and together they are everyone |
| Quorum.UnanimityIsEveryone | polkadot-parachains/integritee-runtime/src/lib.rs:656-659 | the unanimous origin accepts exactly the full member set, which also meets the half |
| Weights.SaturatesOnce | polkadot-parachains/integritee-runtime/src/weights/pallet_collective.rs:46-63 | every tree of saturating additions and multiplications is the exact value cut off once, in both dimensions |
| Weights.WeightMonotone | polkadot-parachains/integritee-runtime/src/weights/pallet_collective.rs:113-130 | every weight expression is monotone in every component |
| Weights.ChainIsOrderFree | polkadot-parachains/integritee-runtime/src/weights/pallet_collective.rs:242-260 | the terms of a saturating chain may be added in any order |
| Weights.SetMembersClosedForm | polkadot-parachains/integritee-runtime/src/weights/pallet_collective.rs:46-63 | the ten saturating terms of set_members amount to one polynomial cut off once, for all components and database weights |
| Weights.CloseApprovedClosedForm | polkadot-parachains/integritee-runtime/src/weights/pallet_collective.rs:242-260 | the same for close_approved |

## Left out

- Transact, origin conversion and Root from the relay chain: they dispatch arbitrary calls. For the same reason the relay chain's own location is not an outsider in `Backing`; `WhoReachesSovereign` says why it could act for a sibling.
- Non-fungible assets, and the caps of 128 bits on a single amount in the holding register: every native amount is bounded by the conserved supply. The limit on the number of entries is modelled.
- Which allow rule lets a message in, and the limit on the number of instructions: runs contain every program, which includes all that these would refuse. `Barrier` states the deny rule for top-level instructions only, as the code scans them; which nested positions a single message can reach depends on the outcome of its instructions, so `NestedBarrier` states the exact condition by depth.
- WeightFee.FeeIsSharpIff: stated up to base weight 184,467,440, beyond which 64-bit weights can be too small for an error to show; the conditions stay sufficient there (`FeeIsNearExact`), and exact for the uncapped fee (`SharpBoundsIff`).
- Wildcard filters by id or by count: a definite filter with the amounts they select expresses each of them.
- The order of entries in the holding register is an arbitrary ranking of asset ids.
- Engines of consensus themselves, their candidates and their verification results: an engine is an object that remembers what it served.
- Two-chain fairness and delivery: messages may be lost or reordered, so nothing is claimed about progress.
- `propose_proposed` and the other weight functions and files: same expression shape, covered by the general lemmas on expressions.
- Node start-up, networking, RPC, chain specifications, command line and scripts: plumbing and constant tables.
