# Verified core of the Logos Execution Environment

This project models three parts of the Logos Execution Environment (LEE) in Dafny and proves what they
promise, for every input, every program and every run of transactions.

* **The transaction state machine.** A public transaction starts a worklist of chained program calls. Each
  output is compared with an overlay of earlier writes, authorization is handed down the call chain, claims
  give unowned accounts an owner, and the result is a state diff. `V03State` applies diffs: accounts, nonces,
  the commitment tree with its index and root history, nullifiers, programs. `LeeTransaction` guards the
  clock, faucet and bridge accounts.
* **The token program**: fungible holdings, NFT masters and printed copies.
* **The AMM program**: constant-product pools whose token movements are chained calls to the token program,
  so the three parts compose.

Program execution, PDA derivation, hashing, signature and proof verification and the image id of a bytecode
are arbitrary functions (`Ledger.Host`, `Calls.Context`, `Amm.Addresses`): every theorem holds whatever they
do. Only two kinds of theorem assume anything of them: `Merkle.MembershipIsSound` a collision-free hash, and the
run theorems of `AmmStakes` that nobody but the AMM derives the vault's or liquidity token's address, and only
from its pool.

## Files

| file | contents |
|---|---|
| `Core`, `Sums`, `Arithmetic` | accounts, programs' outputs, totals over account maps, multiplication and division facts |
| `Execution` | `validate_execution` and the two-word balance sum |
| `Calls` | one call of a chain, and the recursive evaluator of whole chains |
| `Deque` | the imperative worklist loop, proved equal to the evaluator |
| `CallRules`, `CallTrees`, `Refusals` | exactly when a call and a whole tree of calls is accepted, and which error it gets otherwise |
| `CallTrace`, `Authority` | histories of accepted transactions; authorization, ownership, balances, nonces along them |
| `Merkle`, `MerkleTree` | the tree as a function of its leaves; the buffer implementation |
| `Ledger`, `LedgerRuns` | transactions of three kinds, state transitions, invariants of whole runs |
| `LedgerRules` | exactly when each kind of transaction is valid and what it leaves; signatures, proofs and programs over runs |
| `Fence` | genesis and the system-account guard |
| `V03State` | the state as mutable objects, proved against `Ledger` |
| `Token`, `TokenSupply` | the token program; supply conservation over whole runs with all other programs arbitrary |
| `TokenRules`, `TokenTransfers` | exactly when each token instruction and each transfer transaction is accepted |
| `Amm`, `AmmMath` | the AMM program; optimality, dilution and the pool invariant |
| `AmmAmounts`, `AmmRules` | exactly which amounts the AMM trades, when it accepts each instruction, and what it records and chains |
| `AmmPools`, `AmmWiring` | pool invariants over whole runs with all other programs arbitrary |
| `AmmCalls`, `AmmSolvency` | the AMM composed with the token program, for every executed AMM call: vaults follow reserves |
| `AmmAcceptance`, `AmmProgress` | exactly when the loop accepts AMM calls, and what is enough |
| `AmmTrades` | swaps, deposits and withdrawals that always go through |
| `AmmRuns` | sound pools over whole runs paid through the token program |
| `AmmStakes` | vaults and liquidity tokens over whole runs with all other programs arbitrary |
| `AmmPayment` | solvency holds exactly for the calls paid through the token program |
| `AmmExamples` | two accepted transactions, written out, that leave a vault short |

## Reading guide

The main results are `Deque.RunDeque`, `CallTrees.AcceptedExactly`, `CallRules.AuthorizedExactly`,
`LedgerRules.ValidIffRules`, `LedgerRules.NoncesCountValidSignatures`, `CallTrace.AcceptedRunHasHistory`,
`Authority.AuthorizationProvenance`, `LedgerRuns.RunKeepsTotalBalance`, `LedgerRuns.OwnershipWrittenOnce`, `LedgerRuns.NoReplay`,
`LedgerRuns.NoPrivateReplay`, `LedgerRuns.NoDoubleSpend`, `LedgerRuns.IndexAgreesOverRun`,
`Fence.SystemKeptExactly`, `TokenSupply.SupplyConservedOverRun`,
`TokenTransfers.TransferAcceptedExactly`, `AmmRules.AmmAnswersExactly`, `AmmMath.SplittingNeverPays`,
`AmmMath.RunNotPoorer`, `AmmPools.PoolsSoundOverRun`, `AmmRuns.PoolsSoundThroughToken`,
`AmmSolvency.AmmCallSolvent`, `AmmAcceptance.AmmSubtreeExactly`, `AmmAcceptance.AmmAcceptedExactly`,
`AmmWiring.PoolsWiredOverRun`, `AmmTrades.SwapGoesThrough`, `AmmStakes.VaultsNeverFallBehind`,
`AmmStakes.LiquidityStaysCounted` and `AmmPayment.PaymentDecides`.

What `AmmSolvency.AmmCallSolvent` promises of the vaults is true of AMM calls paid through the token program and
false of calls paid in a holding of another program, in a checked build too: `AmmPayment.PaymentDecides` proves
both halves, and `AmmExamples.UnpaidSwapInsolvent` is such a call written out.

Two choices run through the model.

* The AMM uses unchecked u128 operations in several places. A checked build stops on overflow; an ordinary
  release build wraps around. `Amm.Profile` covers both. `AmmMath.NoWrap` says of each instruction that every
  unchecked operation stays within 128 bits, and `AmmMath.BuildsAgreeExactly` that this is exactly where the two
  builds agree. `AmmMath.Fits` asks less: only what the pool invariant needs. It is computable from the pool and
  the arguments and sufficient; for creations it is exact for the invariant (`AmmMath.NewPoolOk`). For the
  others it is exact for something more: that a withdrawal burns what was asked and leaves a sound pool
  (`AmmMath.RemoveIsExact`), that a swap keeps the product (`AmmMath.SwapProductExactly`), that a deposit does not
  dilute (`AmmMath.AddDilutesExactly`). For the invariant alone it is only sufficient there
  (`AmmMath.RemoveFitsNotNecessary`, `AmmMath.SwapFitsNotNecessary`, `AmmMath.AddFitsNotNecessary`). Lemmas whose
  names start with `Wrapping` give inputs on which a wrapping build fails a property. Swaps and deposits that do
  not fit never get past the token program's own overflow check (`AmmSolvency.SwapSolvent`, `AmmSolvency.AddSolvent`).
* A panic of a guest program is a failed execution, which rejects the transaction. The nonce overflow panic of
  `apply_state_diff` is a `None` of `Ledger.Apply`.

Where comments in the sources and the code differ, the model follows the code:

* `lee/state_machine/src/validated_state_diff.rs:279-281` says an authorized account stays authorized for all
  subsequent calls. It does for the calls below the one that saw it authorized, not for later siblings.
* `lez/common/src/transaction.rs:70-71` says transactions modifying the bridge account are rejected. A public
  transaction may raise its balance.
* The guard compares the diff, and nonces are bumped after it. A system account that signs a transaction has
  its nonce moved; `Fence.SystemKeptExactly` states this exactly.

## Model

| member | source | states |
|---|---|---|
| `Sums.NUniqueIsDistinct` | lee/state_machine/src/validated_state_diff.rs:507-510 | the number of different elements is the length of a list exactly when no element repeats, which is what every duplicate check relies on |
| `Sums.SumRecord` | lee/state_machine/src/validated_state_diff.rs:265-272 | writing post-states at distinct ids moves the total of any measure by exactly the difference of the two lists |
| `Sums.RecordOverlay` | lee/state_machine/src/validated_state_diff.rs:265-272 | writing into the overlay and writing into the accounts below it give the same view |
| `Execution.FromBalancesExact` | lee/state_machine/core/src/program.rs:534-547 | the two-word balance sum is the exact total, refused if and only if the total reaches 2^256 |
| `Execution.CheckAccounts` | lee/state_machine/core/src/program.rs:683-732 | passes if and only if every account passes its own rules |
| `Execution.ValidateExecutionMeaning` | lee/state_machine/core/src/program.rs:663-766 | validation accepts if and only if the lists match, ids differ, every account is well behaved for the executing program, and the exact totals are equal and below 2^256 |
| `Calls.CheckPreStates` | lee/state_machine/src/validated_state_diff.rs:158-188 | passes if and only if every pre-state equals the overlay over the state and is flagged authorized exactly when it was granted |
| `Calls.ResolveClaims` | lee/state_machine/src/validated_state_diff.rs:226-263 | accepts if and only if every single claim resolves, with the resolved accounts position by position |
| `Calls.EvalCall` | lee/state_machine/src/validated_state_diff.rs:119-306 | the recursive evaluator terminates for arbitrary programs, runs at least its own call, and never more than MAX_NUMBER_CHAINED_CALLS + 1 in all |
| `Calls.EvalAll` | lee/state_machine/src/validated_state_diff.rs:119-306 | evaluating a list of calls only extends the trace, within the same bound |
| `Calls.EvalAllAppend` | lee/state_machine/src/validated_state_diff.rs:293-301 | evaluating two groups of calls together is evaluating one after the other, errors included |
| `Deque.CheckOutputPreStates` | lee/state_machine/src/validated_state_diff.rs:158-188 | the loop over pre-states finds the same first error as the specification |
| `Deque.ResolveClaimsInPlace` | lee/state_machine/src/validated_state_diff.rs:226-263 | rewriting owners in place, first to last, gives the resolved post-states or the same first refusal |
| `Deque.RefusedClaimRefusesAll` | lee/state_machine/src/validated_state_diff.rs:226-263 | a claim refused early decides the whole list, whatever follows |
| `Deque.UpdateStateDiff` | lee/state_machine/src/validated_state_diff.rs:265-272 | inserting pair by pair is recording the whole list |
| `Deque.PushChildren` | lee/state_machine/src/validated_state_diff.rs:293-301 | pushing the chained calls to the front in reverse leaves them there in their own order |
| `Deque.ExecuteCall` | lee/state_machine/src/validated_state_diff.rs:124-263 | one loop iteration up to the diff is `Execute` |
| `Deque.CheckModifiedDefaults` | lee/state_machine/src/validated_state_diff.rs:308-323 | in whatever order the map yields its entries, the final check names a changed account left without owner if and only if there is one |
| `Deque.RunDeque` | lee/state_machine/src/validated_state_diff.rs:119-323 | the worklist loop terminates and agrees with the recursive evaluator: same calls in the same order, same diff, same acceptance or error, for every program behaviour |
| `CallRules.ExecuteExactly` | lee/state_machine/src/validated_state_diff.rs:124-263 | a call is executed if and only if its program is deployed and answers, every account is reported as it is and flagged exactly when handed down, program and caller ids are right, the output is well behaved, block and time are inside the validity windows, and every claim is on an unowned account and justified; claimed accounts are given to the program |
| `CallRules.RuledResult` | lee/state_machine/src/validated_state_diff.rs:124-263 | these rules determine one result, the executed call |
| `CallRules.EveryCallRanAsRuled` | lee/state_machine/src/validated_state_diff.rs:217-224 | every call of an accepted transaction met all of them, windows and ids included, on the accounts left by the calls before it |
| `CallRules.HandedFromAbove` | lee/state_machine/src/validated_state_diff.rs:274-301 | what reaches a call from above is exactly what signed or was seen authorized on the path to it |
| `CallRules.AuthorizedExactly` | lee/state_machine/src/validated_state_diff.rs:148-188 | a program sees an account as authorized if and only if it signed, the direct caller listed a seed of its own for it, or a call on the path above saw it authorized |
| `CallTrees.AcceptedExactly` | lee/state_machine/src/validated_state_diff.rs:119-323 | a transaction's calls are accepted if and only if there is a tree of at most eleven calls from its own call down, below each call exactly those it chained, every one running as ruled in preorder, that leaves no changed account unclaimed; that tree is what ran |
| `Refusals.ExecutionRefused` | lee/state_machine/core/src/program.rs:663-755 | a refused output gets the error of the first rule it breaks, at the first account that breaks one |
| `Refusals.CallRefused` | lee/state_machine/src/validated_state_diff.rs:124-263 | a refused call gets the error of the first check it fails |
| `Refusals.ChainRefused` | lee/state_machine/src/validated_state_diff.rs:119-323 | a refused chain gets the error of the call at which it stopped, of the twelfth call, or of an account left unclaimed |
| `CallTrace.AcceptedRunHasHistory` | lee/state_machine/src/validated_state_diff.rs:119-306 | an accepted transaction has 1 to MAX_NUMBER_CHAINED_CALLS + 1 calls, each executed on the result of all earlier ones, the first being the transaction's own; its diff over the state is their post-states applied in order |
| `CallTrace.EvalCallHistory` | lee/state_machine/src/validated_state_diff.rs:119-306 | every subtree of calls extends a history and keeps the accumulated overlay equal to its replay |
| `CallTrace.OverlayIsReplay` | lee/state_machine/src/validated_state_diff.rs:265-272 | one accumulated overlay applied once equals applying every call's writes in order |
| `CallTrace.AcceptedCallIsLawful` | lee/state_machine/src/validated_state_diff.rs:148-272 | an accepted call saw current accounts with exact authorization, kept nonces, debited and rewrote only what it owned or found default, claimed only with a reason, and kept the total |
| `CallTrace.CallEffect` | lee/state_machine/src/validated_state_diff.rs:158-263 | every call of a history is lawful in the world left by the calls before it |
| `CallTrace.ClaimsKeepBalances` | lee/state_machine/src/validated_state_diff.rs:226-263 | resolving claims leaves the total balance alone |
| `CallTrace.AccountAcrossCall` | lee/state_machine/src/validated_state_diff.rs:158-272 | seen from one account, a call either does not touch it or takes it from its current value to a permitted one |
| `Authority.AuthorizationProvenance` | lee/state_machine/src/validated_state_diff.rs:148-188 | whatever flags callers wrote into chained calls, an account seen as authorized signed the transaction or is the public PDA of a program on the caller chain for a seed that program listed |
| `Authority.GrantedIsTraceable` | lee/state_machine/src/validated_state_diff.rs:274-301 | the same for everything granted to a call, shown or not |
| `Authority.LineageIsExecuted` | lee/state_machine/src/validated_state_diff.rs:274-301 | the caller chain of a call consists of executed calls, starting at the transaction's own, each chained by the one before |
| `Authority.AuthorityGrowsDownward` | lee/state_machine/src/validated_state_diff.rs:279-292 | down any path the authorized set only grows and keeps everything an ancestor saw as authorized |
| `Authority.ChainKeepsTotal` | lee/state_machine/src/validated_state_diff.rs:208-215 | after any number of calls the sum of all public balances is what it was |
| `Authority.OwnerIsKept` | lee/state_machine/src/validated_state_diff.rs:233-262 | from any call to any later one an owned account keeps its owner |
| `Authority.NewOwnerClaimed` | lee/state_machine/src/validated_state_diff.rs:226-263 | a new owner appears only in an executed call of that very program, on a default account that was authorized or is the program's own PDA for the claimed seed |
| `Authority.DecreaseByOwner` | lee/state_machine/src/validated_state_diff.rs:208-215 | an account that ends a chain poorer was debited in a call of the program owning it at that moment |
| `Authority.DataChangeByOwner` | lee/state_machine/src/validated_state_diff.rs:208-215 | changed data was written by the owner at that moment, or while the account was default |
| `Authority.NonceIsKept` | lee/state_machine/src/validated_state_diff.rs:208-215 | no chain of calls moves a nonce |
| `Authority.StrandedIsFrozen` | lee/state_machine/core/src/program.rs:663-755 | an account without owner that is not default is never touched again in the chain |
| `Authority.ChangedDefaultIsClaimedAtOnce` | lee/state_machine/src/validated_state_diff.rs:308-323 | in an accepted transaction a call that changes an unowned account claims it in that very call |
| `Merkle.AuthenticationPathVerifies` | lee/state_machine/core/src/commitment.rs:89-113 | folding a leaf's authentication path gives the root |
| `Merkle.MembershipIsSound` | lee/state_machine/core/src/commitment.rs:89-113 | with a collision-free hash no other value has a path of the right length to the root at that index |
| `Merkle.AppendElsewhere` | lee/state_machine/src/merkle_tree/mod.rs:105-113 | appending a leaf changes only the nodes above it |
| `MerkleTree.IndexInjective` | lee/state_machine/src/merkle_tree/mod.rs:96-113 | different nodes live at different places of the heap-ordered buffer |
| `MerkleTree.ParentIndex` | lee/state_machine/src/merkle_tree/mod.rs:107-109 | index arithmetic of parents, children and siblings matches the tree's |
| `MerkleTree.PrevPowerOfTwoAt` | lee/state_machine/src/merkle_tree/mod.rs:159-164 | the largest power of two below an index is the width of its level |
| `MerkleTree.DefaultNodes` | lee/state_machine/src/merkle_tree/mod.rs:25-31 | the initial buffer holds the empty tree of every height |
| `MerkleTree.DoubledNodes` | lee/state_machine/src/merkle_tree/mod.rs:74-89 | copying into twice the capacity holds the same leaves |
| `MerkleTree.ClimbFromLeaf` | lee/state_machine/src/merkle_tree/mod.rs:105-113 | rehashing from the new leaf up to the current depth restores every node |
| `MerkleTree.CollectPath` | lee/state_machine/src/merkle_tree/mod.rs:123-141 | the climb reads exactly the sibling hashes of the authentication path |
| `MerkleTree.MerkleTree.WithCapacity` | lee/state_machine/src/merkle_tree/mod.rs:20-38 | a new tree is valid and has no leaves, for any requested capacity |
| `MerkleTree.MerkleTree.RootIndex` | lee/state_machine/src/merkle_tree/mod.rs:45-56 | the root of the occupied part sits at the node of height equal to the depth |
| `MerkleTree.MerkleTree.RootNode` | lee/state_machine/src/merkle_tree/mod.rs:40-43 | the root is the hash of the leaves, independent of capacity |
| `MerkleTree.MerkleTree.ReallocateToDoubleCapacity` | lee/state_machine/src/merkle_tree/mod.rs:74-89 | doubles capacity and keeps the leaves |
| `MerkleTree.MerkleTree.Insert` | lee/state_machine/src/merkle_tree/mod.rs:91-116 | appends exactly one leaf and returns its index |
| `MerkleTree.MerkleTree.GetAuthenticationPathFor` | lee/state_machine/src/merkle_tree/mod.rs:118-142 | answers if and only if the index is occupied, with a path leading to the current root |
| `LedgerRuns.PublicHistory` | lee/state_machine/src/validated_state_diff.rs:43-332 | an accepted public transaction's diff is its replayed history and all modified defaults are claimed |
| `LedgerRuns.BumpEffect` | lee/state_machine/src/state.rs:245-249 | each signer's nonce rises once per signature, without overflow, and nothing else changes |
| `LedgerRuns.AfterNonce` | lee/state_machine/src/state.rs:230-255 | one transaction of any kind moves a nonce by exactly its accepted signatures |
| `LedgerRuns.NoncesCountSignatures` | lee/state_machine/src/state.rs:245-249 | over any run, private transactions included as long as accepted proofs keep nonces, each nonce counts the accepted signatures of its account |
| `LedgerRuns.PublicRunsKeepNonces` | lee/state_machine/src/validated_state_diff.rs:208-215 | that hypothesis holds of every run of public and deployment transactions |
| `LedgerRuns.NoReplay` | lee/state_machine/src/validated_state_diff.rs:72-80 | a signed public transaction, once accepted, is refused for its nonce after any later run, at any block and time |
| `LedgerRuns.NoPrivateReplay` | lee/state_machine/src/validated_state_diff.rs:343-349 | a privacy-preserving transaction is never accepted twice, whatever transactions of any kind come between |
| `LedgerRuns.RunKeepsTotalBalance` | lee/state_machine/src/validated_state_diff.rs:208-215 | over any run of public and deployment transactions the sum of all public balances never changes |
| `LedgerRuns.OwnershipWrittenOnce` | lee/state_machine/src/validated_state_diff.rs:226-263 | over any such run an owner never changes, and a new owner traces to an accepted transaction in which a call of that program claimed the default account |
| `LedgerRuns.AfterOwner` | lee/state_machine/src/validated_state_diff.rs:308-323 | besides, an unowned account whose content a transaction changes ends it owned |
| `LedgerRuns.DiffIsFresh` | lee/state_machine/src/validated_state_diff.rs:357-373 | every accepted diff has different nullifiers and commitments, none of them known |
| `LedgerRuns.NoDoubleSpend` | lee/state_machine/src/validated_state_diff.rs:427-444 | over any run of all kinds no nullifier is accepted twice within or across transactions, nor one spent before, and the spent set is exact |
| `LedgerRuns.RootsOnlyGrow` | lee/state_machine/src/state.rs:51-57 | roots and leaves are never forgotten and the current root stays in the history |
| `LedgerRuns.NullifierCheckStaysValid` | lee/state_machine/src/state.rs:327-342 | a nullifier check that passed once passes after any run if and only if none of its nullifiers was spent meanwhile |
| `LedgerRuns.ExtendIndexAgrees` | lee/state_machine/src/state.rs:51-57 | extending keeps the index a bijection with the leaves if and only if the commitments are new and different |
| `LedgerRuns.IndexAgreesOverRun` | lee/state_machine/src/state.rs:42-61 | over any run of all kinds the index stays that bijection and no commitment's index moves |
| `LedgerRuns.CommitmentsOnlyGrow` | lee/state_machine/src/state.rs:315-325 | a known commitment stays known |
| `Fence.GenesisCommitmentsAgree` | lee/state_machine/src/state.rs:150-202 | genesis knows its root, and its index is a bijection if and only if the initial commitments are different and none is the dummy one |
| `Fence.GenesisHolds` | lee/state_machine/src/state.rs:150-224 | genesis holds the initial balances, the last entry of an id counting, the clock, faucet and bridge accounts whatever the entries say, the built-in programs, the initial nullifiers and commitments, and nothing else |
| `Fence.GuardExactly` | lez/common/src/transaction.rs:75-97 | the guard admits a valid transaction if and only if it would leave clock and faucet accounts as they are and, where it writes the bridge account, is public and only raises its balance |
| `Fence.BridgeDepositAdmitted` | lez/common/src/transaction.rs:155-188 | a valid public transaction that changes no system account but to raise the bridge's balance is admitted |
| `Fence.GuardedRunIsRun` | lez/common/src/transaction.rs:120-131 | a guarded run is the unguarded run of the admitted transactions |
| `Fence.AfterUserSystem` | lez/common/src/transaction.rs:75-94 | one guarded transaction of any kind moves a system account by its own signatures' nonces only, the bridge besides by gaining balance |
| `Fence.SystemAccountsFenced` | lez/common/src/transaction.rs:155-187 | the same over any guarded run, with the nonce counting the accepted signatures |
| `Fence.SystemKeptExactly` | lez/common/src/transaction.rs:244-260 | clock and faucet accounts keep their values and the bridge everything but a balance that never falls, if and only if no accepted transaction was signed by one of them |
| `Fence.UnsignedKeepsSystem` | lez/common/src/transaction.rs:75-94 | in particular over every run whose signers are not system ids |
| `V03State.CommitmentSet.WithCapacity` | lee/state_machine/src/state.rs:66-72 | an empty set over an empty tree |
| `V03State.CommitmentSet.GetProofFor` | lee/state_machine/src/state.rs:42-48 | answers if and only if the commitment is indexed at an existing leaf, with that index and a path from that leaf to the digest |
| `V03State.CommitmentSet.Extend` | lee/state_machine/src/state.rs:51-57 | appends the leaves, indexes them and remembers the new root |
| `V03State.V03State.NewWithGenesisAccounts` | lee/state_machine/src/state.rs:150-224 | builds exactly the genesis state, later entries overriding earlier ones |
| `V03State.V03State.WriteDiff` | lee/state_machine/src/state.rs:238-244 | the result does not depend on the order in which the map yields its entries |
| `V03State.V03State.IncrementNonces` | lee/state_machine/src/state.rs:245-249 | the loop bumps exactly as specified and stops exactly when a nonce would overflow |
| `V03State.OverflowIsFinal` | lee/state_machine/src/state.rs:245-249 | once a nonce overflows no later signer repairs it |
| `V03State.V03State.ApplyStateDiff` | lee/state_machine/src/state.rs:230-255 | the new state is the specified one: diff, nonces, commitments with root, nullifiers, program |
| `V03State.V03State.GetProofForCommitment` | lee/state_machine/src/state.rs:302-304 | when the index agrees with the leaves, a proof is found for exactly the inserted commitments and verifies for that commitment |
| `V03State.V03State.CheckCommitmentsAreNew` | lee/state_machine/src/state.rs:315-325 | passes if and only if none is known |
| `V03State.V03State.CheckNullifiersAreValid` | lee/state_machine/src/state.rs:327-342 | the loop reports the first spent nullifier or unknown root |
| `Ledger.CheckNullifiers` | lee/state_machine/src/state.rs:327-342 | passes if and only if every nullifier is unspent and every root known |
| `V03State.V03State.CheckNonces` | lee/state_machine/src/validated_state_diff.rs:72-80 | passes if and only if every signer's nonce is the current one |
| `V03State.V03State.FromPublicTransaction` | lee/state_machine/src/validated_state_diff.rs:43-332 | validation by the checks and the worklist loop is the specified outcome |
| `V03State.V03State.FromPrivacyPreservingTransaction` | lee/state_machine/src/validated_state_diff.rs:334-453 | the checks in source order, with the specified diff or first error |
| `LedgerRules.PublicExactly` | lee/state_machine/src/validated_state_diff.rs:43-332 | a public transaction is valid if and only if its account ids differ, there is one current nonce and one valid signature per signer, and the run it starts is accepted: its call on the listed accounts as they are, flagged exactly when they signed, on behalf of its signers; the diff is what that run wrote |
| `LedgerRules.PrivateExactly` | lee/state_machine/src/validated_state_diff.rs:334-453 | a privacy-preserving transaction is valid if and only if its proof is valid for the listed accounts as they are, its signatures, nonces and windows are good, and its nullifiers and commitments are new and different; its diff has exactly the listed ids that have a post-state, each with its own |
| `LedgerRules.DeploymentExactly` | lee/state_machine/src/validated_state_diff.rs:455-471 | a deployment is valid if and only if its bytecode has an image id that is not known yet |
| `LedgerRules.ValidIffRules` | lez/common/src/transaction.rs:99-118 | validity of every kind of transaction as one if-and-only-if over message, state and environment |
| `LedgerRules.ApplyExactly` | lee/state_machine/src/state.rs:230-255 | a diff is applied if and only if no signer's nonce runs out; then every account is as written with its signatures counted, commitments are appended under a remembered root, nullifiers spent and the program known, and nothing else |
| `LedgerRules.RunMeetsRules` | lez/common/src/transaction.rs:75-118 | every transaction a run accepts met the rules of its kind on the very state it met, every signature and every proof valid there |
| `LedgerRules.SignaturesAreValid` | lee/state_machine/src/validated_state_diff.rs:66-70 | over any run every signature a nonce counts is a valid one |
| `LedgerRules.NoncesCountValidSignatures` | lee/state_machine/src/validated_state_diff.rs:66-81 | a nonce rises over a run by exactly the valid signatures its account put on accepted transactions, where accepted proofs keep nonces |
| `LedgerRules.ProgramsOverRun` | lee/state_machine/src/state.rs:252-254 | after any run the known programs are the old ones and exactly those the run deployed |
| `Refusals.PublicRefused` | lee/state_machine/src/validated_state_diff.rs:43-332 | a refused public transaction gets the error of the first check it fails, or of its chain |
| `Refusals.PrivateRefused` | lee/state_machine/src/validated_state_diff.rs:334-453 | a refused privacy-preserving transaction gets the error of the first check it fails |
| `V03State.V03State.FromProgramDeploymentTransaction` | lee/state_machine/src/validated_state_diff.rs:455-471 | a known program is refused, a new one is the whole diff |
| `V03State.V03State.Transition` | lee/state_machine/src/state.rs:257-287 | an accepted transaction leads to the specified state, a refused one leaves it unchanged |
| `V03State.V03State.ExecuteCheckOnState` | lez/common/src/transaction.rs:120-131 | the same under the system-account guard |
| `Token.TransferInPlace` | programs/token/src/transfer.rs:8-111 | on success exactly the amount left the authorized sender's holding and arrived at the recipient's, and nothing but their data changed; otherwise the same first panic as the specification |
| `Token.BurnInPlace` | programs/token/src/burn.rs:8-105 | on success the authorized holding and the declared supply both fell by the amount, for all three kinds of holding, and nothing but data changed |
| `Token.MintInPlace` | programs/token/src/mint.rs:8-72 | on success the holding and the authorized definition's supply both rose by the amount, and nothing but data changed |
| `Token.PrintInPlace` | programs/token/src/print_nft.rs:8-55 | on success one unit of the authorized master became an owned copy in a default account, and the master keeps at least one |
| `Token.Dispatch` | program_methods/guest/src/bin/token.rs:12-94 | the guest built from these methods outputs what the specified token program does: no chained calls, its accounts as given, nothing but data changed |
| `TokenRules.TransferExactly` | programs/token/src/transfer.rs:8-111 | a transfer succeeds if and only if the sender authorized it, the recipient can hold that token, and the amount is one the sender has and the recipient has room for: any for coins, all of it for a master, one for a copy; exactly the amount changes hands |
| `TokenRules.BurnExactly` | programs/token/src/burn.rs:8-105 | the same for a burn: authorized, of this definition, held and declared |
| `TokenRules.MintExactly` | programs/token/src/mint.rs:8-72 | for a mint: authorized by a fungible definition, into a holding with room, within the supply limit |
| `TokenRules.PrintExactly` | programs/token/src/print_nft.rs:8-55 | for a printed copy: authorized by a master that keeps a unit, into an unused account |
| `TokenRules.CreationExactly` | programs/token/src/new_definition.rs:10-48 | a token is created if and only if its accounts are unused, with the whole supply in the first holding |
| `TokenRules.CreationWithMetadataExactly` | programs/token/src/new_definition.rs:51-126 | the same with metadata, for coins and masters |
| `TokenRules.InitializeExactly` | programs/token/src/initialize.rs:8-35 | an account is opened if and only if it is unused and the other is a definition; it starts empty |
| `TokenRules.TokenAnswersExactly` | program_methods/guest/src/bin/token.rs:12-94 | the program answers if and only if it accepts the instruction on the accounts given, chains nothing and sets no window |
| `TokenTransfers.TransferAcceptedExactly` | lee/state_machine/src/validated_state_diff.rs:119-323 | a transaction that transfers tokens is accepted if and only if the accounts are given truly, the transfer can be made, and the token program may write both, an unused recipient having signed; the accounts after it are exactly that transfer |
| `TokenTransfers.CoinsAlwaysMove` | programs/token/src/transfer.rs:30-48 | in a backed state a signed transfer of at most what the sender holds, between the program's holdings of one fungible token, is never refused |
| `TokenTransfers.SignedTransferIsValid` | lee/state_machine/src/validated_state_diff.rs:43-332 | the same for a whole transaction with its signature and nonce, with the diff it has |
| `TokenSupply.TransferMatched` | programs/token/src/transfer.rs:30-95 | a transfer moves units between holdings of one definition and kind, and brings no second master alive |
| `TokenSupply.BurnMatched` | programs/token/src/burn.rs:29-91 | burning removes the same number of units and of supply |
| `TokenSupply.MintMatched` | programs/token/src/mint.rs:33-60 | minting adds the same number of units and of supply |
| `TokenSupply.PrintMatched` | programs/token/src/print_nft.rs:26-49 | printing turns one unit of the master into one owned copy |
| `TokenSupply.NewFungibleMatched` | programs/token/src/new_definition.rs:10-48 | a new definition's supply is its first holding |
| `TokenSupply.NewWithMetadataMatched` | programs/token/src/new_definition.rs:51-126 | the same with metadata, for fungible tokens and NFTs, with one master |
| `TokenSupply.InitializeMatched` | programs/token/src/initialize.rs:8-35 | a new holding starts with nothing |
| `TokenSupply.EffectsMatched` | program_methods/guest/src/bin/token.rs:1-94 | every instruction keeps units and supply matched, and only a new definition brings a master alive |
| `TokenSupply.ForeignCallKeepsBacked` | lee/state_machine/core/src/program.rs:663-755 | a call of any other program changes no token balance, supply or master |
| `TokenSupply.TokenCallKeepsBacked` | program_methods/guest/src/bin/token.rs:1-94 | a token call keeps supply backed and masters unique over the whole state |
| `TokenSupply.ChainKeepsBacked` | lee/state_machine/src/validated_state_diff.rs:119-306 | so does every chain of calls, with all other programs arbitrary |
| `TokenSupply.SupplyConservedOverRun` | programs/token/src/mint.rs:33-52 | over any run of public and deployment transactions each total supply is the sum of its holdings, each printable supply the masters' print balances plus the owned copies, and at most one master is alive |
| `TokenSupply.GenesisIsBacked` | lee/state_machine/src/state.rs:150-202 | genesis satisfies that invariant |
| `TokenSupply.TransferNeverOverflows` | programs/token/src/transfer.rs:45-47 | in such a state the recipient overflow branch is reached only with an account that is neither the token program's nor default |
| `TokenSupply.BurnNeverUnderflows` | programs/token/src/burn.rs:45-47 | the supply underflow branches are reached only with such a foreign account, or for a master whose own balance is short too |
| `TokenSupply.MintOverflowsOnlyWithSupply` | programs/token/src/mint.rs:45-51 | a holding overflows on minting only when the total supply would too, or with a foreign account |
| `TokenSupply.ForeignRecipientOverflows` | programs/token/src/transfer.rs:45-47 | a backed state in which a foreign account with token-shaped data reaches the overflow branch |
| `TokenSupply.ForeignTokenCallRefused` | lee/state_machine/core/src/program.rs:663-755 | a transfer, burn or mint of a positive amount that names a foreign account fails execution validation whatever its numbers |
| `Amm.Isqrt` | programs/amm/src/new_definition.rs:81 | the integer square root: its square is within the number, the next square is not |
| `AmmMath.SwapInputOptimal` | programs/amm/src/swap.rs:170-183 | exact-input pays the largest output that does not lower the product of the reserves |
| `AmmMath.SwapOutputOptimal` | programs/amm/src/swap.rs:295-315 | exact-output charges the smallest input that does not lower it |
| `AmmMath.SwapDuality` | programs/amm/src/swap.rs:170-183 | one pays at least o for i if and only if the other charges at most i for o |
| `AmmMath.SwapsAgree` | programs/amm/src/swap.rs:295-315 | charging for an exact-input result costs at most what was paid, and that charge buys the same output again |
| `AmmMath.SwapPrograms` | programs/amm/src/swap.rs:159-315 | the same through the two computations with their guards |
| `AmmMath.ThereAndBackNeverGains` | programs/amm/src/swap.rs:170-183 | swapping there and back returns no more than was put in |
| `AmmMath.SplittingNeverPays` | programs/amm/src/swap.rs:170-183 | any sequence of exact-input swaps pays in total no more than one swap of the whole |
| `AmmMath.SwapKeepsPool` | programs/amm/src/swap.rs:77-82 | a swap whose deposit fits keeps the pool invariant, the supply, and the product from falling |
| `AmmMath.SwapProductExactly` | programs/amm/src/swap.rs:77-82 | a swap that pays out no more than the reserve keeps the product from falling if and only if its deposit fits; exact-output always pays within, exact-input if and only if y*i < (y+1)*((x+i) mod 2^128) |
| `AmmMath.RemoveFitsNotNecessary` | programs/amm/src/remove.rs:83-112 | a concrete withdrawal that does not fit and leaves a sound pool |
| `AmmMath.SwapFitsNotNecessary` | programs/amm/src/swap.rs:77-82 | for the pool invariant alone fitting is sufficient but not necessary: a concrete swap that does not fit and leaves a sound pool |
| `AmmMath.WrappingSwapBreaksPool` | programs/amm/src/swap.rs:173-176 | a concrete swap that does not fit: refused in a checked build, an unsound pool in a wrapping one |
| `AmmMath.NewPoolOk` | programs/amm/src/new_definition.rs:80-108 | a created pool satisfies the invariant if and only if the product of the deposits modulo 2^128 is not zero; always in a checked build |
| `AmmMath.WrappingCreatesEmptyPool` | programs/amm/src/new_definition.rs:81 | deposits of 2^64 each give no liquidity tokens in a wrapping build and are refused in a checked one |
| `AmmMath.MintWithinShare` | programs/amm/src/add.rs:83-124 | however products wrap, a deposit takes at most the offered amounts and mints at most its share of either token |
| `AmmMath.AddKeepsPool` | programs/amm/src/add.rs:114-133 | a deposit that fits keeps the invariant and dilutes nobody, and the new supply fits by itself |
| `AmmMath.AddDilutesExactly` | programs/amm/src/add.rs:126-133 | a deposit whose minted liquidity fits on top of the supply dilutes nobody if and only if it fits on top of both reserves |
| `AmmMath.AddFitsNotNecessary` | programs/amm/src/add.rs:126-133 | a concrete deposit that does not fit and leaves a sound pool |
| `AmmMath.WrappingDepositBreaksPool` | programs/amm/src/add.rs:128-133 | a concrete deposit that does not fit: refused in a checked build, an unsound pool in a wrapping one |
| `AmmMath.WithdrawalWithinShare` | programs/amm/src/remove.rs:83-100 | however products wrap, a withdrawal pays at most its share, and burns exactly the requested liquidity if and only if supply times amount fits |
| `AmmAmounts.WithdrawalExactly` | programs/amm/src/remove.rs:83-100 | the amounts of a withdrawal are exactly the largest its tokens are worth, by the products' last 128 bits, and no less than the minimums; a checked build stops where a product does not fit |
| `AmmAmounts.WithdrawalAccepted` | programs/amm/src/remove.rs:83-97 | amounts are computed if and only if there is liquidity, no product stops the build, and the worth covers both minimums |
| `AmmAmounts.UnwrappedWithdrawal` | programs/amm/src/remove.rs:83-100 | where nothing wraps exactly the tokens asked for are burnt, for the most they are worth |
| `AmmAmounts.DepositExactly` | programs/amm/src/add.rs:83-124 | the amounts of a deposit are exactly the most of each token, within its limit, that the other side calls for, and the tokens minted the most both are worth, no less than the minimum |
| `AmmAmounts.InitialExactly` | programs/amm/src/new_definition.rs:80-81 | the liquidity of a new pool is exactly the integer square root of the product |
| `AmmAmounts.SwapExactly` | programs/amm/src/swap.rs:159-350 | a given input buys exactly the largest output and a given output costs exactly the smallest input, within the limit, or there is no trade |
| `AmmMath.RemoveKeepsPool` | programs/amm/src/remove.rs:83-112 | a withdrawal dilutes nobody and keeps the invariant if and only if liquidity is left or both reserves come out whole |
| `AmmMath.RemoveIsExact` | programs/amm/src/remove.rs:98-112 | it burns what was asked and leaves a sound pool if and only if its fits-in-u128 condition holds |
| `AmmMath.WrappingRemovalBreaksPool` | programs/amm/src/remove.rs:99-112 | a concrete withdrawal that does not fit: refused in a checked build, an active pool without reserve in a wrapping one |
| `AmmMath.PayoutWithinReserve` | programs/amm/src/remove.rs:83-86 | a payout is within its reserve if and only if (reserve*amount mod 2^128) < (reserve+1)*supply |
| `AmmMath.WrappingRemovalOverpays` | programs/amm/src/remove.rs:83-112 | a concrete withdrawal from a sound pool that pays twice reserve A for no liquidity tokens in a wrapping build; refused in a checked one |
| `AmmMath.AddThenRemoveNeverGains` | programs/amm/src/add.rs:83-133 | adding liquidity and removing what was minted returns no more of either token than was deposited |
| `AmmMath.BuildsAgreeExactly` | programs/amm/src/lib.rs:3-8 | a checked build accepts exactly what a wrapping one accepts with every unchecked operation within 128 bits, with the same result |
| `AmmMath.CheckedStepFits` | programs/amm/src/lib.rs:3-8 | in a checked build every accepted step meets the condition under which steps keep the invariant |
| `AmmMath.StepKeepsPool` | programs/amm/src/remove.rs:83-112 | every accepted step of any kind that fits keeps the pool invariant |
| `AmmMath.RunNotPoorer` | programs/amm/src/add.rs:114-133 | over any sequence of deposits, withdrawals and swaps the invariant holds and the product per squared share never falls: in a checked build always, in a wrapping one while the steps fit |
| `AmmMath.StepNeedsSupply` | programs/amm/src/remove.rs:102-112 | an emptied pool accepts nothing but re-creation |
| `AmmPools.InstructionWritesOnlyPool` | programs/amm/src/swap.rs:65-93 | every instruction writes only the pool account, by exactly its step on the pool's numbers |
| `AmmPools.SwapSetupMeans` | programs/amm/src/swap.rs:8-57 | a validated setup is the account's own active pool with fungible vaults covering both reserves |
| `AmmPools.InactivePoolRefusesDeposits` | programs/amm/src/add.rs:72-73 | deposits are refused by every inactive sound pool although `active` is never read there |
| `AmmPools.CallKeepsPools` | lee/state_machine/core/src/program.rs:663-755 | a call of any program, lawful in its world, keeps whatever holds of all pools of the AMM and is kept by its own calls |
| `AmmPools.PoolsSoundOverRun` | programs/amm/src/new_definition.rs:75-108 | over any run of public and deployment transactions every account the AMM owns is a pool that is active with positive reserves and supply, supply squared within their product, or inactive and empty: in a checked build always, in a wrapping one while its calls fit |
| `AmmRuns.PaidInTokenFits` | programs/token/src/transfer.rs:45-47 | in an accepted transaction whose AMM calls pay through the token program, all swaps and deposits fit |
| `AmmRuns.PoolsSoundThroughToken` | programs/amm/src/new_definition.rs:75-108 | the pool invariant over any run whose AMM calls pay through the token program, in a wrapping build too, assuming the condition for creations and withdrawals only |
| `AmmPools.GenesisPoolsSound` | lee/state_machine/src/state.rs:150-202 | genesis satisfies that |
| `AmmPools.RunKeepsPools` | lee/state_machine/core/src/program.rs:663-755 | what every executed AMM call keeps of its pool, every run keeps of every pool, with all other programs arbitrary |
| `AmmRules.SwapEffectExactly` | programs/amm/src/swap.rs:8-350 | a swap is accepted if and only if the pool is active, the vaults are its own and cover its reserves, and there is a trade within the limit; the pool then records it and the two transfers carry it out, the second under the vault's seed |
| `AmmRules.AddEffectExactly` | programs/amm/src/add.rs:11-179 | the same for a deposit: its pool record, mint and two transfers |
| `AmmRules.RemoveEffectExactly` | programs/amm/src/remove.rs:11-167 | the same for a withdrawal: its pool record, burn and two transfers |
| `AmmRules.NewEffectExactly` | programs/amm/src/new_definition.rs:14-171 | the same for a creation: tokens of the two paying holdings, derived addresses, no active pool |
| `AmmRules.AmmAnswersExactly` | program_methods/guest/src/bin/amm.rs:14-166 | the program answers if and only if it accepts the instruction on the accounts given |
| `AmmWiring.InstructionKeepsRecord` | programs/amm/src/new_definition.rs:95-108 | a new pool records the tokens of the two paying holdings and the addresses derived from them; every other instruction keeps them |
| `AmmWiring.PoolsWiredOverRun` | programs/amm/src/new_definition.rs:95-108 | over any run, in either build and with all other programs arbitrary, every pool's address and those of its vaults and liquidity token are derived from the tokens it records |
| `AmmWiring.GenesisPoolsWired` | lee/state_machine/src/state.rs:150-202 | genesis satisfies that |
| `AmmCalls.FollowInSubtree` | lee/state_machine/src/validated_state_diff.rs:293-301 | in the subtree of any call, the calls chained by one that chains only to a program which never chains are the ones executed next, in order |
| `AmmCalls.AmmChildrenFollow` | lee/state_machine/src/validated_state_diff.rs:293-301 | in every accepted transaction the calls an executed AMM call chains, whoever chained it, follow it directly and in order, if the program it is paid through never chains, as the token program does not |
| `AmmCalls.AmmExecuted` | programs/amm/src/swap.rs:65-93 | an executed AMM call saw different accounts as they are and wrote the pool alone |
| `AmmCalls.TransferMovesUnits` | programs/token/src/transfer.rs:30-95 | what a settled transfer does to the two holdings, and that it fits |
| `AmmCalls.MintAndBurnMoveSupply` | programs/token/src/mint.rs:33-52 | what a settled mint, burn or new definition does to the declared supply |
| `AmmCalls.AmmCallsOneProgram` | programs/amm/src/swap.rs:185-217 | everything an instruction chains goes to the owner of the paying holding |
| `AmmCalls.AmmCallsAreSeparate` | programs/amm/src/remove.rs:118-166 | the calls an instruction chains concern different accounts as the AMM was given them, none of them the pool |
| `AmmCalls.SnapshotsStayCurrent` | lee/state_machine/src/validated_state_diff.rs:158-173 | when each call chained by an executed AMM call comes up, at any depth, the accounts the AMM handed it are still current, so the consistency check never refuses it for a stale snapshot |
| `AmmSolvency.SwapSolvent` | programs/amm/src/swap.rs:185-217 | an executed swap through the token program, in either build and whatever the pool's numbers: no addition wraps, each vault's surplus over its recorded reserve is unchanged, and the user's holdings move by exactly the two sides of the best trade |
| `AmmSolvency.AddSolvent` | programs/amm/src/add.rs:138-178 | the same for a deposit, the user paying exactly its amounts and holding the liquidity minted; the liquidity-token surplus is unchanged if and only if the pool's supply does not wrap, as it does not in a checked build or a sound pool |
| `AmmSolvency.RemoveSolvent` | programs/amm/src/remove.rs:118-166 | a withdrawal leaves a vault's surplus unchanged if and only if (reserve*amount mod 2^128) < (reserve+1)*supply, otherwise lower by 2^128; the condition holds in a checked build and for at most the whole supply; the liquidity-token surplus is always unchanged; the user's two holdings rise by exactly the payouts |
| `AmmSolvency.NewSolvent` | programs/amm/src/new_definition.rs:83-171 | creating or re-creating a pool raises each surplus by exactly what the old pool still counted, so leaves it unchanged if and only if that was nothing |
| `AmmSolvency.WrappingRemovalLeavesReserve` | programs/amm/src/remove.rs:99-112 | a concrete full withdrawal that deactivates a pool with reserve left in a wrapping build; refused in a checked one |
| `AmmSolvency.AmmCallSolvent` | lee/state_machine/src/validated_state_diff.rs:119-306 | all of this for every executed AMM call of every accepted transaction, chained by whomever, between the world it saw and the world after its token calls |
| `AmmSolvency.TransactionSolvent` | lee/state_machine/src/validated_state_diff.rs:119-323 | for a transaction's own AMM call these are the accounts before and after the transaction |
| `AmmSolvency.FlatTransaction` | lee/state_machine/src/validated_state_diff.rs:293-301 | a transaction whose call chains only calls to a program that never chains runs exactly those |
| `AmmAcceptance.ExecuteIsLocal` | lee/state_machine/src/validated_state_diff.rs:124-263 | for every program, the outcome of a call, error included, depends on the overlay only at the accounts its program reports |
| `AmmAcceptance.CallsAreIndependent` | lee/state_machine/src/validated_state_diff.rs:123-306 | calls on different accounts to a program that chains nothing, such as the token program, taken in order by the loop, succeed if and only if each succeeds by itself, and each leaves its own result where it wrote |
| `AmmAcceptance.AmmCallLeaves` | programs/amm/src/remove.rs:114-166 | an executed AMM call leaves two or three calls on different accounts, none of them the pool, and every account but the pool as it was |
| `AmmAcceptance.AmmSubtreeExactly` | lee/state_machine/src/validated_state_diff.rs:123-306 | an executed AMM call, at any point of any transaction, paid through a program that chains nothing, goes through with all it chains if and only if the call limit leaves room and every chained call would be executed by itself right after it |
| `AmmAcceptance.SettledTogether` | lee/state_machine/src/validated_state_diff.rs:308-323 | the final check on all calls together passes if and only if it would pass after each call alone |
| `AmmAcceptance.AmmAcceptedExactly` | lee/state_machine/src/validated_state_diff.rs:119-323 | a transaction's own AMM call that executes, paid through a program that chains nothing, is accepted if and only if every call it chains would be accepted by itself right after it |
| `AmmProgress.PlainOutputExecutes` | lee/state_machine/src/validated_state_diff.rs:124-263 | an output that reports its accounts as they are, claims nothing and changes only data the program owns is executed |
| `AmmProgress.AmmGoesThrough` | lee/state_machine/src/validated_state_diff.rs:43-332 | a well prepared AMM transaction on an existing pool is accepted as soon as the AMM accepts the instruction and the program it is paid through answers each chained call acceptably on the accounts as the AMM saw them |
| `AmmProgress.TokenAcceptable` | lee/state_machine/core/src/program.rs:663-755 | which the token program does whenever it accepts the call |
| `AmmTrades.SwapGoesThrough` | lee/state_machine/src/validated_state_diff.rs:43-332 | on a wired pool with the right vaults, in a backed state, a swap of which there is one within the limit is accepted from a user who signed and holds what it costs, and that swap is what happens |
| `AmmTrades.RemoveGoesThrough` | lee/state_machine/src/validated_state_diff.rs:43-332 | there, whoever signed and holds liquidity tokens can withdraw what they are worth, down to their minimums |
| `AmmTrades.AddGoesThrough` | lee/state_machine/src/validated_state_diff.rs:43-332 | there, a deposit into a sound pool that counts all its liquidity tokens is accepted from a user who signed and holds what was offered |
| `AmmStakes.HarmIsAuthorized` | programs/token/src/transfer.rs:13 | a token call lowers a holding only where the holder authorized it, as sender, burner or printing master, and raises a supply only as a mint the definition authorized |
| `AmmStakes.HoldingAcross` | lee/state_machine/core/src/program.rs:663-755 | across a call of any program that does not do so, a token account keeps what it holds, and a definition declares no more |
| `AmmStakes.AmmSeeds` | programs/amm/src/swap.rs:199-215 | every seed an AMM call lists is hashed from its pool |
| `AmmStakes.AmmHarms` | programs/amm/src/remove.rs:118-166 | apart from the two vaults and the liquidity token's definition it was given, the calls an AMM call chains debit or mint only what was authorized for the AMM call itself |
| `AmmStakes.OtherCallKeeps` | lee/state_machine/core/src/program.rs:663-755 | a call of any program that is not an AMM call on the pool, and to which the account is not granted, neither lowers the vault's surplus nor raises that of the liquidity token |
| `AmmStakes.ChildNotGranted` | lee/state_machine/src/validated_state_diff.rs:274-301 | nor is the account granted to anything such a call chains |
| `AmmStakes.WrittenSupply` | programs/amm/src/remove.rs:99-112 | an AMM call changes the recorded liquidity supply only at the definition it was given, and a pool that is not active counts none |
| `AmmStakes.PoolCallKeeps` | programs/amm/src/swap.rs:185-217 | nor does an AMM call on the pool with all it chains, whether or not the account is one it was given |
| `AmmStakes.MarginInSubtree` | lee/state_machine/src/validated_state_diff.rs:119-306 | nor any call with all it chains, at an account that was not granted to it |
| `AmmStakes.TransactionKeepsMargin` | lee/state_machine/src/validated_state_diff.rs:119-323 | nor a public transaction the account does not sign |
| `AmmStakes.VaultsNeverFallBehind` | lee/state_machine/src/state.rs:230-255 | over any run of public and deployment transactions the vault does not sign, all other programs arbitrary, what a vault holds beyond what its pool counts never falls, as long as AMM calls on that pool pay through the token program and withdraw within the reserves; it fails without either condition (AmmExamples.UnpaidSwapInsolvent, AmmExamples.WrappingRemovalInsolvent) |
| `AmmStakes.LiquidityStaysCounted` | lee/state_machine/src/state.rs:230-255 | over any such run liquidity tokens beyond those the pool counts never become more, as long as AMM calls on that pool pay through the token program and deposits do not wrap its supply |
| `AmmPayment.DataWithoutToken` | lee/state_machine/core/src/program.rs:663-755 | through calls of other programs a token account keeps its data |
| `AmmPayment.UnpaidBlock` | programs/amm/src/swap.rs:185-217 | an executed AMM call that does not pay through the token program leaves what every token account holds unchanged, by itself and by the calls it chains, and the pool as the instruction wrote it |
| `AmmPayment.PaymentDecides` | programs/amm/src/swap.rs:185-217 | for an executed AMM call on a pool of the AMM with token vaults, whose chained calls follow it directly, what AmmCallSolvent promises holds if and only if the call pays through the token program |
| `AmmExamples.WrappingRemovalInsolvent` | programs/amm/src/remove.rs:83-112 | a concrete accepted transaction on a sound pool, in a wrapping build, after which a vault is 2^128 further short of what the pool counts |
| `AmmExamples.UnpaidSwapInsolvent` | programs/amm/src/swap.rs:185-217 | a concrete accepted swap on a sound pool in a checked build, paid in a holding of a program that moves nothing, after which a vault is short of what the pool counts |

## Left out

- Byte encodings: account data and instructions are typed values, so Borsh, size limits of data and inputs that decode as more than one type are not modelled.
- The privacy-preserving circuit: its proof is an arbitrary predicate. Balance, ownership, supply and pool theorems are about runs of public and deployment transactions; nonce theorems admit private ones under the hypothesis that accepted proofs keep nonces; nullifier, commitment, root and guard theorems admit all.
- RISC0 execution, cycle limits and ELF decoding: a program is a function from its input to an optional output, and a bytecode is known by its image id.
- Hashing, signatures, ML-KEM, note encryption and PDA derivation: arbitrary functions.
- Payloads of errors: the model keeps which check failed and in most cases the account, not the values or messages reported with it; the final check on unclaimed accounts does not say which one it found first.
- Serialization of the state and of the nullifier set, logging, and the functions that force accounts or programs into a state for testnets.
- The transfer, clock, faucet, bridge, vault, pinata, multisig and associated-token-account programs: covered as arbitrary programs, their own rules would add only easy members.
- `execute_without_system_accounts_check_on_state`: it drops the guard; `V03State.Transition` is the same step without a guard.
- Wallet, indexer, sequencer, mempool, storage and network code.
- MerkleTree.MerkleTree.WithCapacity: the source indexes a fixed table of default hashes and stops beyond it; the model computes them for any depth.
- MerkleTree.MerkleTree.ReallocateToDoubleCapacity: likewise, doubling never stops in the model.
- AmmSolvency.AmmCallSolvent: is about AMM calls whose paying holding belongs to the token program. For calls paid in a holding of another program what it promises is false: `AmmPayment.PaymentDecides` proves that it holds exactly for calls paid through the token program, where the chained calls follow directly and the vaults are token accounts, and `AmmExamples.UnpaidSwapInsolvent` is an accepted swap that leaves a vault short. Only the pool invariant covers such calls.
- AmmStakes.VaultsNeverFallBehind: asks that the AMM calls on the pool pay through the token program, because the property is false otherwise, as above.
- AmmStakes.LiquidityStaysCounted: one direction only; a holder may burn liquidity tokens without the AMM, so the pool may count more than exist.
- AmmTrades.SwapGoesThrough, AmmTrades.AddGoesThrough, AmmTrades.RemoveGoesThrough: enough for a trade to be accepted, on accounts that exist and vaults that hold the pool's tokens; `AmmAcceptance.AmmAcceptedExactly` is the exact condition.
- Refusals.ChainRefused: names a call that came up after calls that ran as ruled, not its place in preorder, which `CallTrees.AcceptedExactly` fixes for accepted chains.
- AmmPools.PoolsSoundOverRun: in a wrapping build it asks that the AMM calls fit, because the paying holdings may belong to any program; `AmmRuns.PoolsSoundThroughToken` drops this for swaps and deposits through the token program.
