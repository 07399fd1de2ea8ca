# midnight-js: a verified model

A Dafny model of the parts of midnight-js where correctness depends on reasoning across several functions, with proofs
of what those parts keep. `dafny verify dfyconfig.toml` checks all of it.

- **Zswap offers** (`Seqs`, `Sums`, `Numerals`, `JsonText`, `CoinInfo`, `InsertionMap`, `ZswapOffer`, `SplitProperties`,
  `ZswapProperties`, `ZswapPartition`). Coins are JavaScript objects with an order of properties; their JSON text is the
  key of the three Maps through which `zswapStateToOffer` splits a circuit run into inputs, outputs and transients. The
  chain of results goes from the JSON round trip over keys and the loop to partition and conservation of value.
- **Argument parser** (`Arguments`, `ArgumentProperties`, `NumberText`, `ArgumentRoundTrip`, `ReferenceHost`).
  `transformParams` over a tree of type nodes. JSON5 and `Number` are a record of functions, `Host`: soundness and blame
  hold for every host, the round trip under the laws in `Laws`, which `ReferenceHost.LawsSatisfied` shows to be
  consistent. How JavaScript prints an integer-valued double is modelled in `NumberText`.
- **Contract lifecycle** (`ContractState`, `Lifecycle`, `AuthoritySafety`, `KeyAgreement`, `KeyRecovery`, `KeyPolicies`,
  `Provenance`, `VerifierKeyTable`, `Sequential`, `Session`). A transition system: the chain and the transactions sent to
  it, one store per client, and calls that move from one `await` to the next, interleaved in any way, with crashes.
  Assumed of the node: a maintenance update applies only with the current counter and the current authority's signature;
  a replacement installs the authority it carries; a verifier-key update raises the counter by a parameter `keyBump`,
  which the repository does not show. `Session` holds the functions as they are written, in place on one client's stores,
  and `Sequential` shows each of them to be an uninterleaved run of the system.
- **Hex and ranges** (`Hex`, `IntegerRange`, `JsNumbers`), **state streams** (`StateStreams`, `TxStreams`), **compiler
  versions** (`StableSort`, `Versions`).

## Where the code does less than it says

Each of these is proved, with the exact condition where there is one.

- The order of a coin's properties is part of its Map key, so the same coin listed in two orders is not matched
  (`CoinInfo.FieldOrderSplitsKeys`). Repeated coins lose value, and exactly when what inputs and outputs lose differs a
  token type is not conserved (`ZswapProperties.ConservationIff`, `ZswapPartition.RepeatedOutputNotConserved`).
- Nested strings keep their value exactly when they have no apostrophes and no escaped characters, byte strings exactly
  when they are not empty (`ArgumentRoundTrip.NestedTextIff`). Nested bigints go through a double and its printed digits,
  and keep their value exactly when they are below 10^21 in magnitude and printed as themselves
  (`ArgumentRoundTrip.NestedBigIntIff`, `ArgumentRoundTrip.LostBigInts`). Booleans accept more words than two
  (`ArgumentRoundTrip.LooseBooleans`), and `null` passes for an object literal without properties.
- `findDeployedContract` promises to keep the key of a contract deployed locally, but a find that runs while the
  deployment completes overwrites it (`KeyAgreement.FindRacesDeployment`); a key replaced by itself can come back later
  over a newer one (`KeyAgreement.SelfReplacement`). Stored key and authority stay in agreement exactly under the policies
  of use that rule out these two, finds that bring a key, and maintenance by other clients (`KeyPolicies.AgreementIff`).
- The `latest` stream is documented to start with the most recent state; it starts with the first state of the most
  recent acting block (`StateStreams.LatestFirstIff`, `StateStreams.LatestMayStartOld`).
- The `txId` stream is documented to include all later state updates of the contract. It looks at no address, pairs
  actions with identifiers and skips in every transaction anew. `TxStreams.TxStreamIff` has the exact condition, for
  inclusive and exclusive streams, and three lemmas show inputs on which it fails: more actions than identifiers
  (`TxStreams.ShortIdentifiersLose`), actions of other contracts (`TxStreams.ForeignActionsAppear`), and later
  transactions (`TxStreams.LaterUpdatesLost`).
- The "invalid hex-digit" messages name a valid digit exactly when an odd number of hex digits follows the prefix
  (`HexPattern.ReportedDigitIff`, `HexPattern.ReportedDigitMayBeValid`).
- An inclusive range is documented to contain all values `x` with `n <= x <= m`. `contains` also lets in the fractions
  above `m`, such as 10.5 for `0..=10`, and loses a maximum whose successor rounds back to it
  (`IntegerRange.ContainsIffDenotes`, `IntegerRange.FractionLetIn`, `IntegerRange.MaximumLost`).
- A range prints its sign and, from 10^21 on, an exponent, but parses neither (`IntegerRange.RoundTripIff`,
  `IntegerRange.FromPrinted`).
- Clean-up keeps the version the runner takes for the latest exactly when it keeps as many as tie for newest
  (`Versions.LatestKeptIff`, `Versions.TieLosesLatest`).

## Model

| member | source | states |
|---|---|---|
| `Numerals.BigIntOfPrint` | packages/contracts/src/utils/zswap-utils.ts:51-71 | `BigInt(n.toString())` is `n` for every bigint, through white space, sign and radix prefixes |
| `Numerals.BigIntOfIff` | compact-js/compact-js-command/src/effect/internal/compiledContractReflection.ts:112-114 | `BigInt` reads exactly these texts, and these numbers from them: white space around nothing, signed decimal digits, or digits behind a radix prefix |
| `JsonText.ParseStringify` | packages/contracts/src/utils/zswap-utils.ts:49-61 | `JSON.parse(JSON.stringify(v))` is `v` for nested values with every escape, when no object repeats a key |
| `CoinInfo.CoinSerialises` | packages/contracts/src/utils/zswap-utils.ts:40-53 | every coin, whatever the order of its properties, passes the key check and serialises |
| `CoinInfo.SerializeOutcome` | packages/contracts/src/utils/zswap-utils.ts:40-53 | serialising refuses the first of: a property that coins do not have, a missing value, a bigint elsewhere; else it gives the JSON of the coin |
| `CoinInfo.DeserializeSerialize` | packages/contracts/src/utils/zswap-utils.ts:47-88 | deserialising a serialised coin gives back the coin, for any strings and any integer value |
| `CoinInfo.BigIntRevived` | packages/contracts/src/utils/zswap-utils.ts:60-72 | wrapped bigints are revived under `value` only, whatever the text |
| `CoinInfo.BytesRevived` | packages/contracts/src/utils/zswap-utils.ts:73-83 | wrapped bytes are revived under `color` and `nonce` only |
| `CoinInfo.DeserializeRefuses` | packages/contracts/src/utils/zswap-utils.ts:86-87 | an object of texts is refused if and only if it has a property that coins do not have |
| `CoinInfo.OtherTexts` | packages/contracts/src/utils/zswap-utils.ts:86-87 | of what is no object, texts, lists with elements and `null` are refused, and nothing else |
| `CoinInfo.KeysAgreeIff` | packages/contracts/src/utils/zswap-utils.ts:47-53 | two coins have one key if and only if they are the same properties in the same order |
| `CoinInfo.DropIndexMeaning` | packages/contracts/src/utils/zswap-utils.ts:55-58 | a qualified coin loses its `mt_index`, wherever it stands, and nothing else |
| `CoinInfo.QualifiedKeysAgreeIff` | packages/contracts/src/utils/zswap-utils.ts:55-58 | two qualified coins have one key if and only if they differ at most in `mt_index` |
| `CoinInfo.FieldOrderSplitsKeys` | packages/contracts/src/utils/zswap-utils.ts:49-52 | the same coin with two properties swapped has another key |
| `ZswapOffer.ZswapStateToOffer` | packages/contracts/src/utils/zswap-utils.ts:122-161 | the two loops over the three Maps compute the fold `StateToOffer`, errors included, on which the rows below reason |
| `SplitProperties.OutputTableIff` | packages/contracts/src/utils/zswap-utils.ts:127-132 | building the Map of outputs succeeds if and only if every coin serialises; then it holds the last output of each key and no other key |
| `SplitProperties.SplitMembership` | packages/contracts/src/utils/zswap-utils.ts:135-157 | where every key ends up, by how often it occurs among inputs and outputs, for any repetitions |
| `SplitProperties.KeySetsDisjointIff` | packages/contracts/src/utils/zswap-utils.ts:135-157 | outputs are disjoint from inputs and transients; inputs and transients are disjoint if and only if no output is spent twice |
| `SplitProperties.SplitBuilds` | packages/contracts/src/utils/zswap-utils.ts:138-155 | every input and transient in the Maps was built from an input, and an output, with its own key |
| `SplitProperties.SplitSucceedsIff` | packages/contracts/src/utils/zswap-utils.ts:135-157 | the loop throws if and only if the chain is missing or malformed and some input repeats or spends no output of the run |
| `ZswapProperties.KeyReadsCoin` | packages/contracts/src/utils/zswap-utils.ts:106-112 | the type and value read back from a key are those of the coin it was made from |
| `ZswapProperties.MergedDelta` | packages/contracts/src/utils/zswap-utils.ts:114-120 | merging the offers of a Map sums their deltas, per token type |
| `ZswapProperties.OfferDelta` | packages/contracts/src/utils/zswap-utils.ts:158-160 | the offer's delta is inputs minus outputs of the Maps; transients contribute nothing |
| `ZswapProperties.Balance` | packages/contracts/src/utils/zswap-utils.ts:122-161 | for any inputs and outputs: the delta is spent minus created value, each without what repeated coins lose |
| `ZswapProperties.ConservationIff` | packages/contracts/src/utils/zswap-utils.ts:122-161 | a token type is conserved if and only if inputs repeated beyond one, two for a coin created here, and outputs repeated beyond one are worth the same in it |
| `ZswapProperties.Conservation` | packages/contracts/src/utils/zswap-utils.ts:106-161 | with distinct inputs and distinct outputs every token type is conserved, for any number of coins |
| `ZswapPartition.SucceedsIff` | packages/contracts/src/utils/zswap-utils.ts:145-146 | on typed coins an offer results if and only if a chain state is given with an address of 68 hex digits, or distinct inputs all spend outputs of the run |
| `ZswapPartition.FailureMeaning` | packages/contracts/src/utils/zswap-utils.ts:145-146 | what is thrown on typed coins: the missing chain state first, else what is wrong with its address |
| `ZswapPartition.BadOutputReported` | packages/contracts/src/utils/zswap-utils.ts:127-132 | the first output whose coin does not serialise is what is thrown, whatever the inputs |
| `ZswapPartition.BadInputReported` | packages/contracts/src/utils/zswap-utils.ts:135-136 | so is an input whose coin does not, if the inputs before it raise no error |
| `ZswapPartition.FirstErrorStays` | packages/contracts/src/utils/zswap-utils.ts:135-146 | an error raised by the first inputs is what is thrown, whatever inputs follow |
| `ZswapPartition.Partition` | packages/contracts/src/utils/zswap-utils.ts:122-161 | inputs, outputs and transients of the offer are exactly spent-only, created-only, and created-and-spent coins, each built with segment 0, and inputs with the address and state of the chain |
| `ZswapPartition.OutputsPlaced` | packages/contracts/src/utils/zswap-utils.ts:90-104 | with distinct coins: an output for a user is in the offer, or inside a transient, as owned by that user under the encryption key, one for a contract as owned by that contract |
| `ZswapPartition.OrderDoesNotMatter` | packages/contracts/src/utils/zswap-utils.ts:122-161 | permuting inputs and outputs changes neither success nor the offer |
| `ZswapPartition.RepeatedOutputNotConserved` | packages/contracts/src/utils/zswap-utils.ts:127-132 | two outputs of one coin lose its value |
| `Arguments.TransformParams` | compact-js/compact-js-command/src/effect/internal/compiledContractReflection.ts:91-191 | the index loop computes the recursive `Transform` and terminates on the depth of the types |
| `Arguments.ParseArgument` | compact-js/compact-js-command/src/effect/internal/compiledContractReflection.ts:107-178 | one argument, with the loop that overwrites the parsed object member by member, computes `ParseOne` |
| `ArgumentProperties.ParseOneSound` | compact-js/compact-js-command/src/effect/internal/compiledContractReflection.ts:109-177 | for a supported type and any host, what one argument parses to inhabits the type, recursively |
| `ArgumentProperties.TransformSound` | compact-js/compact-js-command/src/effect/internal/compiledContractReflection.ts:96-190 | success gives one value per declared type, each an inhabitant |
| `ArgumentProperties.SetMembersSound` | compact-js/compact-js-command/src/effect/internal/compiledContractReflection.ts:150-166 | after the member loop every declared property holds an inhabitant of its type, whatever object was parsed |
| `ArgumentProperties.BlamesFirst` | compact-js/compact-js-command/src/effect/internal/compiledContractReflection.ts:97-190 | failure is a wrong count or the first argument that does not parse, reported with its text, type name and cause |
| `ArgumentProperties.BytesIff` | compact-js/compact-js-command/src/effect/internal/compiledContractReflection.ts:168-176 | a byte string is read from every hex text, prefixed or not, quoted or not, as its whole bytes, and from no other text; the error is that of the hex parser |
| `ArgumentProperties.TextsRead` | compact-js/compact-js-command/src/effect/internal/compiledContractReflection.ts:109-117 | numbers and bigints are read from the text itself, bigints from exactly what `BigInt` reads; strings are the text, without its apostrophes where quoted |
| `ArgumentProperties.AbsentText` | compact-js/compact-js-command/src/effect/internal/compiledContractReflection.ts:109-177 | what an absent text gives for every scalar type, as a member that the object lacks does |
| `ArgumentProperties.ListRefusal` | compact-js/compact-js-command/src/effect/internal/compiledContractReflection.ts:122-149 | a list type refuses what is no array, then a wrong number of elements, then the first element that does not parse |
| `ArgumentProperties.MemberRefusal` | compact-js/compact-js-command/src/effect/internal/compiledContractReflection.ts:156-165 | an object literal blames the first declared property whose text does not parse, with its text, type name and cause |
| `ArgumentProperties.NamesJoined` | compact-js/compact-js-command/src/effect/internal/compiledContractReflection.ts:76-79 | the names of tuple elements are separated by commas |
| `ArgumentProperties.PropertiesJoined` | compact-js/compact-js-command/src/effect/internal/compiledContractReflection.ts:80-83 | so are those of properties, each behind its own name |
| `ArgumentRoundTrip.UnquoteIff` | compact-js/compact-js-command/src/effect/internal/compiledContractReflection.ts:116-116 | removing apostrophes from a JSON5 string literal gives the string if and only if it is plain |
| `ArgumentRoundTrip.SetMembersMixed` | compact-js/compact-js-command/src/effect/internal/compiledContractReflection.ts:156-165 | if every member's text parses to its value, the loop turns the parsed object into the value, in its own order |
| `ArgumentRoundTrip.SetMembersOk` | compact-js/compact-js-command/src/effect/internal/compiledContractReflection.ts:156-165 | where the loop succeeds, every declared property has become what its text parses to, and no other has changed |
| `ArgumentRoundTrip.NestedIff` | compact-js/compact-js-command/src/effect/internal/compiledContractReflection.ts:107-178 | a typed value of any depth, rendered as a nested argument and parsed, is the same value if and only if its strings are plain, its bigints printed as themselves and its byte strings not empty |
| `ArgumentRoundTrip.RoundTrip` | compact-js/compact-js-command/src/effect/internal/compiledContractReflection.ts:91-191 | a whole list of typed arguments comes back if and only if each does, where any top-level string and any top-level bigint does |
| `ArgumentRoundTrip.NestedTextIff` | compact-js/compact-js-command/src/effect/internal/compiledContractReflection.ts:115-176 | a nested string survives if and only if it is plain, a byte string if and only if it is not empty |
| `NumberText.ShownRounds` | compact-js/compact-js-command/src/effect/internal/compiledContractReflection.ts:129-129 | the shortest digits printed for a double read back as the double |
| `NumberText.ShownShortest` | compact-js/compact-js-command/src/effect/internal/compiledContractReflection.ts:129-129 | no text of fewer digits reads back as the double, and of as many digits none is closer |
| `ArgumentRoundTrip.NestedBigIntIff` | compact-js/compact-js-command/src/effect/internal/compiledContractReflection.ts:112-114 | a nested bigint comes back as the number printed for its nearest double, and is refused where that has an exponent; it survives if and only if it is printed as itself |
| `ArgumentRoundTrip.NestedBigInts` | compact-js/compact-js-command/src/effect/internal/compiledContractReflection.ts:112-114 | all bigints up to 2^53 survive, beyond it at most one for each double, from 10^21 on none; what comes back survives |
| `ArgumentRoundTrip.LostBigInts` | compact-js/compact-js-command/src/effect/internal/compiledContractReflection.ts:112-114 | 2^53 + 1 comes back as 2^53; 2^60, a double, as 1152921504606847000, which is no double and survives |
| `ArgumentRoundTrip.NullPassesEmptyLiteral` | compact-js/compact-js-command/src/effect/internal/compiledContractReflection.ts:150-166 | `null` is accepted for an object literal if and only if it declares no property, and does not inhabit it |
| `ArgumentRoundTrip.LooseBooleans` | compact-js/compact-js-command/src/effect/internal/compiledContractReflection.ts:118-121 | exactly `true` reads as true; what reads as false is exactly every longer text that begins with `true` and every text that ends with `false`; all others are refused |
| `ContractState.LedgerContractState.AddVerifierKeys` | packages/contracts/src/utils/ledger-utils.ts:64-75 | keys are installed in order up to the first circuit the state does not have, which is reported |
| `ContractState.LedgerContractState.AddMaintenanceAuthority` | packages/contracts/src/utils/ledger-utils.ts:90-92 | the first authority has counter zero |
| `ContractState.LedgerContractState.PrepareDeploy` | packages/contracts/src/utils/ledger-utils.ts:94-104 | keys first; the authority is set only when all of them were installed |
| `ContractState.LedgerContractState.VerifyContractState` | packages/contracts/src/find-deployed-contract.ts:120-135 | the loop reports, in order, exactly the listed circuits that are missing or hold another key |
| `ContractState.InstallMeaning` | packages/contracts/src/utils/ledger-utils.ts:64-75 | succeeds if and only if every circuit is there; no circuit appears or disappears, unlisted ones keep their key, the last entry of a circuit counts |
| `ContractState.InstallFails` | compact-js/compact-js/src/effect/ContractExecutable.ts:298-318 | on failure the first missing circuit is reported and exactly the entries before it are installed |
| `ContractState.NoMismatchIff` | packages/contracts/src/find-deployed-contract.ts:124-134 | nothing is reported if and only if every listed circuit holds its key |
| `ContractState.DeployThenVerify` | packages/contracts/src/find-deployed-contract.ts:120-135 | a freshly prepared state passes the check if and only if entries for one circuit agree on the key |
| `ContractState.DeployThenFind` | compact-js/compact-js/src/effect/ContractExecutable.ts:296-318 | with distinct ids: every listed operation holds its key, the others and the set are unchanged, the check accepts |
| `HexUtils.VerifierKeysEqualIff` | packages/contracts/src/find-deployed-contract.ts:109-110 | equal if and only if the same bytes |
| `AuthoritySafety.CounterNeverDecreases` | packages/contracts/src/utils/ledger-utils.ts:77-88 | along every run of all clients no contract's counter decreases and no contract disappears |
| `AuthoritySafety.ReplacementRaisesByOne` | packages/contracts/src/utils/ledger-utils.ts:155-181 | an applied replacement raises the counter to exactly one above the value it was built on, and touches nothing else |
| `AuthoritySafety.UpdatesAreBuiltFromReads` | packages/contracts/src/submit-replace-authority-tx.ts:48-55 | every update sent or built carries a counter the chain had and was made for the contract as read then: an insertion for a circuit it did not define, a removal for one it did, a replacement one counter up; it is signed with a key a client held at that time or later |
| `AuthoritySafety.HeldCountersAreCurrentOrBehind` | packages/contracts/src/utils/ledger-utils.ts:166-175 | no update sent, built or about to be built is ahead of the chain |
| `AuthoritySafety.StaleUpdatesNeverApply` | packages/contracts/src/utils/ledger-utils.ts:166-181 | no update built on a counter read before an applied replacement ever succeeds after it, in any run |
| `KeyAgreement.KeyAgreement` | packages/contracts/src/submit-replace-authority-tx.ts:48-63 | in every reachable state the stored key is the authority, or signed the replacement that installed it, and then every update sent or built is refused; whoever deploys, finds, calls and crashes, whenever |
| `KeyAgreement.CrashStrands` | packages/contracts/src/submit-replace-authority-tx.ts:55-61 | a crash between finalisation and storing leaves the old key stored under the new authority |
| `KeyAgreement.StrandedForever` | packages/contracts/src/submit-replace-authority-tx.ts:59-61 | then stored key, authority and operations never change again, until a key is stored explicitly |
| `KeyAgreement.FindRacesDeployment` | packages/contracts/src/find-deployed-contract.ts:52-58 | a find during the last step of a deployment replaces the deployment's key by a sampled one |
| `KeyAgreement.SelfReplacement` | packages/contracts/src/submit-replace-authority-tx.ts:48-63 | replacing a key by itself while others replace it can take the stored key back two authorities |
| `KeyRecovery.AgreementLasts` | packages/contracts/src/submit-replace-authority-tx.ts:48-63 | from any settled state in which key and authority agree, however it came about, they agree along every allowed run |
| `KeyRecovery.RecoveryIff` | packages/contracts/src/find-deployed-contract.ts:44-51 | a stranded client's find with a key, with any slot and initial state, interleaved with anything allowed, brings the store in step if and only if the key is the authority, and then agreement lasts beyond the find |
| `KeyPolicies.AgreementIff` | packages/contracts/src/find-deployed-contract.ts:44-59 | all runs that a policy of use allows keep agreement if and only if it forbids finding early, bringing a key to a find, replacing a key by itself, and maintenance by other clients; there are no other rules |
| `Provenance.EveryStateHasASource` | packages/contracts/src/submit-call-tx.ts:64-85 | in any interleaving a stored private state was given to a find, constructed by a fully successful deploy, or is the next state of a fully successful call run on an earlier value of its slot, and stands since |
| `Provenance.SequentialCallsFold` | packages/contracts/src/unproven-call-tx.ts:202-234 | calls one after another leave in the slot the fold over exactly the fully successful ones, and nothing else changes |
| `VerifierKeyTable.TableIsFold` | packages/contracts/src/submit-insert-vk-tx.ts:53-67 | after any sequence of insertions and removals the table is the fold of the successful ones |
| `VerifierKeyTable.KeysStayUntilRemoved` | packages/contracts/src/submit-insert-vk-tx.ts:56-59 | a defined key is never overwritten; only its own removal ends it |
| `VerifierKeyTable.RemoveThenInsert` | packages/contracts/src/submit-remove-vk-tx.ts:47-61 | removing a key and inserting it again restores the table |
| `VerifierKeyTable.OverwriteIff` | packages/contracts/src/submit-insert-vk-tx.ts:53-67 | with concurrent clients some run overwrites a defined key if and only if the node leaves the counter alone on key updates |
| `Sequential.MaintainRefines` | packages/contracts/src/submit-replace-authority-tx.ts:48-63 | a maintenance call served alone is its run of the transition system |
| `Sequential.SendAlone` | packages/contracts/src/submit-tx.ts:61-72 | sending, settling and waiting leave the transaction settled with the ruling of the chain it met, and only full success goes on to the stores |
| `Sequential.CallRefines` | packages/contracts/src/submit-call-tx.ts:57-94 | so is a circuit call |
| `Sequential.DeployRefines` | packages/contracts/src/submit-deploy-tx.ts:58-84 | so is a deployment |
| `Sequential.FindRefines` | packages/contracts/src/find-deployed-contract.ts:256-298 | so is a find of a deployed contract |
| `Session.InMemoryPrivateStateProvider.Set` | testkit-js/testkit-js/src/contract/in-memory-private-state-provider.ts:44-47 | on the table in insertion order: afterwards the slot, and only it, holds the state, and no slot stands twice |
| `Session.InMemoryPrivateStateProvider.Get` | testkit-js/testkit-js/src/contract/in-memory-private-state-provider.ts:53-56 | searching the table finds what the slot holds, nothing if it holds nothing |
| `Session.InMemoryPrivateStateProvider.Remove` | testkit-js/testkit-js/src/contract/in-memory-private-state-provider.ts:62-65 | deleting from the table empties the slot, there or not, and no other |
| `Session.InMemoryPrivateStateProvider.SetSigningKey` | testkit-js/testkit-js/src/contract/in-memory-private-state-provider.ts:80-83 | the same as `Set` for the key of an address; slots are left alone |
| `Session.InMemoryPrivateStateProvider.GetSigningKey` | testkit-js/testkit-js/src/contract/in-memory-private-state-provider.ts:89-92 | the same as `Get` for the key of an address |
| `Session.InMemoryPrivateStateProvider.RemoveSigningKey` | testkit-js/testkit-js/src/contract/in-memory-private-state-provider.ts:98-101 | the same as `Remove` for the key of an address; slots are left alone |
| `Session.InMemoryPrivateStateProvider.ClearSigningKeys` | testkit-js/testkit-js/src/contract/in-memory-private-state-provider.ts:106-111 | deleting address by address, in order, leaves no key and every slot |
| `Session.Client.SubmitReplaceAuthorityTx` | packages/contracts/src/submit-replace-authority-tx.ts:48-63 | ordered checks, sending and storing leave the state `ServeMaintain` says; a malformed address, a missing contract and a missing key are errors before anything is sent, else exactly the replacement one counter up is sent and its verdict returned; on return the new key is stored and is the authority, on an error neither chain nor keys have changed |
| `Session.Client.SubmitInsertVerifierKeyTx` | packages/contracts/src/submit-insert-vk-tx.ts:47-68 | the same for an insertion, which is refused, with nothing sent, where an operation is defined |
| `Session.Client.SubmitRemoveVerifierKeyTx` | packages/contracts/src/submit-remove-vk-tx.ts:42-62 | the same for a removal, which is refused, with nothing sent, where none is |
| `Session.Client.SubmitDeployTx` | packages/contracts/src/submit-deploy-tx.ts:58-84 | exactly the deployment with counter zero is sent and its verdict returned; both stores are written, with the key that is then the authority, if and only if it fully succeeds; else nothing changes |
| `Session.Client.CreateUnprovenCallTx` | packages/contracts/src/unproven-call-tx.ts:202-250 | returns if and only if address, circuit and provider configuration are in order and `RunCall` gives a result, which it returns; the first of the three that is not is the error, and after them the first of contract state, private state, circuit run and operation that is missing |
| `Session.Client.SubmitCallTx` | packages/contracts/src/submit-call-tx.ts:57-94 | refused before sending, with that error, where nothing can be run; else exactly the call is sent and its verdict returned, and the slot moves to the next state if and only if it fully succeeds |
| `Session.Client.SetOrGetInitialSigningKey` | packages/contracts/src/find-deployed-contract.ts:44-59 | the returned key is the stored one: given, else existing, else sampled |
| `Session.Client.SetOrGetInitialPrivateState` | packages/contracts/src/find-deployed-contract.ts:61-101 | the four cases of slot and initial state, which of the two errors is thrown, and what is stored |
| `Session.Client.FindDeployedContract` | packages/contracts/src/find-deployed-contract.ts:256-298 | waits if and only if the contract is not deployed; returns, with the key that is then stored, if and only if the address is valid, all keys match and slot and initial state fit; on a mismatch it reports all of them and writes nothing; which key and state are stored, and which error is thrown, in every case |
| `StateStreams.HeightStreamMeaning` | packages/indexer-public-data-provider/src/indexer-public-data-provider.ts:494-502 | the stream is every action for the address, one by one, in blocks from the height on, or from the next one on |
| `StateStreams.HeightStreamIsSuffix` | packages/indexer-public-data-provider/src/indexer-public-data-provider.ts:197-202 | it is a suffix of the contract's whole history |
| `StateStreams.HeightStreamGrows` | packages/indexer-public-data-provider/src/indexer-public-data-provider.ts:494-502 | arriving blocks add exactly their own states at the end |
| `StateStreams.HeightStreamOnlyAppends` | packages/indexer-public-data-provider/src/indexer-public-data-provider.ts:495-502 | nothing emitted is taken back, also before the block exists |
| `StateStreams.HashStreamIsHeightStream` | packages/indexer-public-data-provider/src/indexer-public-data-provider.ts:494-497 | starting at a hash is starting at that block's height |
| `StateStreams.HashStreamMeaning` | packages/indexer-public-data-provider/src/indexer-public-data-provider.ts:495-497 | silent while no block has the hash; then the stream from the first block that has it |
| `StateStreams.HashStreamOnlyAppends` | packages/indexer-public-data-provider/src/indexer-public-data-provider.ts:273-288 | nothing emitted is taken back, also before the block appears |
| `StateStreams.LatestHeight` | packages/indexer-public-data-provider/src/indexer-public-data-provider.ts:204-229 | the most recent block that acts on the contract, if any does |
| `StateStreams.LatestStreamMeaning` | packages/indexer-public-data-provider/src/indexer-public-data-provider.ts:483-488 | the stream is that block's states followed by those of later blocks, a suffix of the history |
| `StateStreams.LatestFirstIff` | packages/indexer-public-data-provider/src/indexer-public-data-provider.ts:483-488 | at subscription it is the most recent state alone if and only if that block has one action for the contract |
| `StateStreams.LatestMayStartOld` | packages/types/src/public-data-provider.ts:29-34 | with two actions in the block the first state emitted is not the most recent |
| `StateStreams.PolledStreamMeaning` | packages/indexer-public-data-provider/src/indexer-public-data-provider.ts:204-229 | a subscriber that polls is silent until a poll sees an action; then the stream is that of the most recent acting block the poll sees, newer than the poll before, and the whole history if and only if no earlier block acts |
| `TxStreams.TxStreamIff` | packages/indexer-public-data-provider/src/indexer-public-data-provider.ts:152-188 | for any transactions, contract and `inclusive`: the `txId` stream emits exactly the updates of the contract from the named transaction on, or after it, if and only if the transactions are `Complete`: actions for the contract stand exactly between the identifier's place and the last identifier |
| `TxStreams.PromiseIsHistory` | packages/types/src/public-data-provider.ts:70-74 | what is promised, read off actions and addresses alone, is a suffix of the contract's whole history |
| `TxStreams.TxIdStreamIff` | packages/indexer-public-data-provider/src/indexer-public-data-provider.ts:477-482 | on a chain: silent while no block carries the identifier; then the emitted states are those of the promised updates, which end the history, if and only if the transactions from that block on are `Complete` |
| `TxStreams.TxIdStreamOnlyAppends` | packages/indexer-public-data-provider/src/indexer-public-data-provider.ts:152-173 | nothing that a `txId` stream has emitted is taken back when blocks arrive, also before the transaction does |
| `TxStreams.OnlyIfNothingFollows` | packages/indexer-public-data-provider/src/indexer-public-data-provider.ts:184-188 | when a later transaction without the identifier updates the contract, neither kind of stream is right |
| `TxStreams.ShortIdentifiersLose` | packages/indexer-public-data-provider/src/indexer-public-data-provider.ts:183-188 | an action beyond the last identifier is lost |
| `TxStreams.ForeignActionsAppear` | packages/indexer-public-data-provider/src/indexer-public-data-provider.ts:477-482 | another contract's state is emitted for one whose history is empty |
| `TxStreams.LaterUpdatesLost` | packages/indexer-public-data-provider/src/indexer-public-data-provider.ts:477-482 | a later update is lost, in the inclusive and in the exclusive stream |
| `HexPattern.MatchLosslessMaximal` | platform-js/platform-js/src/effect/internal/hex.ts:25-45 | the three groups rebuild the source, and no longer even run of hex digits follows the prefix |
| `HexPattern.MatchesIffOneLine` | packages/utils/src/hex-utils.ts:47-86 | the pattern matches if and only if there is no line feed, carriage return, line or paragraph separator |
| `HexPattern.InvalidDigitReported` | packages/utils/src/hex-utils.ts:149-158 | the reported index is in range, and that character or the next is no hex digit |
| `HexPattern.ReportedDigitIff` | packages/utils/src/hex-utils.ts:149-158 | the reported character is itself a hex digit if and only if an odd number of them follows the prefix |
| `HexPattern.ReportedDigitMayBeValid` | platform-js/platform-js/src/effect/internal/hex.ts:50-58 | the shortest case: `ag` blames `a` |
| `HexUtils.ValidatorsAgree` | packages/utils/src/hex-utils.ts:111-171 | `isHex` holds if and only if `assertIsHex` does not throw, if and only if the text is that many whole bytes |
| `HexUtils.IsHexOutcome` | packages/utils/src/hex-utils.ts:111-123 | `isHex` throws if and only if the text has a line terminator and is not refused before it is looked at; else it answers, false for whatever is not whole bytes of the demanded number |
| `HexUtils.AssertOutcome` | packages/utils/src/hex-utils.ts:139-170 | which error `assertIsHex` throws, with the digit and its place, for every text and length |
| `HexUtils.ContractAddressIff` | packages/utils/src/type-utils.ts:30-40 | contract addresses are exactly 68 unprefixed hex digits |
| `HexUtils.AddressOutcome` | packages/utils/src/type-utils.ts:30-40 | an address is refused for what `assertIsHex` throws, or for its prefix |
| `HexUtils.FromToHex` | packages/utils/src/hex-utils.ts:93-100 | decoding the encoding of any bytes gives the bytes |
| `HexUtils.ToFromHex` | packages/utils/src/hex-utils.ts:93-100 | encoding the decoding of any text gives its longest run of whole bytes in lower case |
| `HexUtils.ToFromHexIff` | packages/utils/src/hex-utils.ts:93-100 | which is the whole text in lower case if and only if it is whole bytes of hex digits |
| `PlatformHex.ParsersAgree` | platform-js/platform-js/src/effect/internal/hex.ts:28-63 | both packages accept the same texts, and the parse is the digits after the prefix |
| `PlatformHex.ParseOutcome` | platform-js/platform-js/src/effect/internal/hex.ts:28-63 | which error the parser gives, with the digit and its place, for every text |
| `PlatformHex.RefineOutcome` | platform-js/platform-js/src/effect/internal/hex.ts:75-101 | every constructor: text, then prefix, then length, if one is given and not empty, against the range given or parsed |
| `PlatformHex.ConstructorTakesRange` | platform-js/platform-js/src/effect/internal/hex.ts:75-100 | with a range of either kind, as an object or printed, bounds below 2^53, it accepts exactly the byte lengths the range denotes |
| `PlatformHex.ConstructorAccepts` | platform-js/platform-js/src/effect/internal/hex.ts:75-100 | a constructor with range `a..=b`, bounds below 2^53, accepts exactly `a` to `b` whole bytes, at least one, with the demanded prefix |
| `IntegerRange.ContainsIffDenotes` | platform-js/platform-js/src/effect/IntegerRange.ts:131-137 | for all integer-valued doubles as bounds: `contains` is the interval on every double, fractions included, if and only if the range is exclusive, empty, or its maximum lies outside [-2^52, 2^52) and `max + 1` does not round back to it |
| `IntegerRange.WholeContainsIff` | platform-js/platform-js/src/effect/IntegerRange.ts:131-137 | on every integer-valued double if and only if the range is exclusive, empty, or `max + 1` does not round back to `max` |
| `IntegerRange.ContainsDiffers` | platform-js/platform-js/src/effect/IntegerRange.ts:131-137 | on any real value: let in wrongly is exactly what lies between an inclusive maximum and the rounding of its successor; left out wrongly is at most the maximum itself |
| `JsNumbers.RoundNearest` | platform-js/platform-js/src/effect/IntegerRange.ts:131-137 | the sum of a bound and one is taken as a double to which none is nearer |
| `IntegerRange.FractionLetIn` | platform-js/platform-js/src/effect/IntegerRange.ts:52-55 | below 2^52, half a unit above an inclusive maximum is let in |
| `IntegerRange.MaximumLost` | platform-js/platform-js/src/effect/IntegerRange.ts:131-137 | an inclusive maximum is lost at 2^53 and 2^53 + 4, kept at 2^53 + 2 and from -2^53 to below 2^53 |
| `IntegerRange.ConversionsKeepMembers` | platform-js/platform-js/src/effect/IntegerRange.ts:159-195 | for all integer-valued doubles as bounds: a conversion keeps the integer-valued members if and only if the range is of that kind already, its maximum is below its minimum, or adding or subtracting one changes its maximum |
| `IntegerRange.ConversionsInvert` | platform-js/platform-js/src/effect/IntegerRange.ts:159-195 | with bounds below 2^53 in magnitude the conversions undo each other, and `contains` goes by the interval before and after |
| `IntegerRange.FromPrinted` | platform-js/platform-js/src/effect/IntegerRange.ts:212-276 | what a printed range reads back as, for all integer-valued doubles: signs are lost, a negative maximum becomes zero, and from 10^21 on the minimum becomes its exponent and the maximum its first digit |
| `NumberText.ExponentMeaning` | platform-js/platform-js/src/effect/IntegerRange.ts:223-227 | a bound printed with an exponent shows a digit that is not zero, the others behind a point without final zeros, and the power of ten, which together are the number |
| `IntegerRange.FromStringMeaning` | platform-js/platform-js/src/effect/IntegerRange.ts:255-276 | the leftmost two dots, with digits before and an optional `=` and digits after them, make a range from any text |
| `IntegerRange.FromStringIff` | platform-js/platform-js/src/effect/IntegerRange.ts:212-270 | a text is a range if and only if it holds two dots |
| `IntegerRange.RoundTripIff` | platform-js/platform-js/src/effect/IntegerRange.ts:212-276 | for all integer-valued doubles as bounds: printing then parsing is the identity if and only if both bounds lie in [0, 10^21) |
| `Versions.VersionManager.CleanupOldVersions` | packages/compact/src/version-manager.ts:55-60 | for any count the list afterwards is the rest of the slice, the last `min(k, n)` for a positive `k`, and nothing else is removed |
| `Versions.InstalledWithout` | packages/compact/src/version-manager.ts:50-53 | removing versions leaves exactly the other installed ones, in directory order, whether they were there or not |
| `Versions.InstalledIff` | packages/compact/src/version-manager.ts:32-44 | a version is listed if and only if it is a directory that holds the compiler |
| `Versions.ListAscends` | packages/compact/src/version-manager.ts:39-44 | the list is the installed versions in ascending order, ties in directory order |
| `Versions.WithoutMeaning` | packages/compact/src/version-manager.ts:50-53 | removal takes the entries of these names, whatever they hold, and no other |
| `Versions.ListWithoutFirst` | packages/compact/src/version-manager.ts:32-44 | removing the first listed versions leaves the others, listed in the same order |
| `Versions.LatestIsNewest` | packages/compact/src/run-utils.ts:41-60 | of the versions nothing comes after, the runner takes the first in directory order |
| `Versions.ResolveMeaning` | packages/compact/src/run-utils.ts:20-60 | the environment variable if it is set, else the named version if its compiler is there, else an installed one; with the error of each case |
| `Versions.LatestKeptIff` | packages/compact/src/run-utils.ts:41-60 | clean-up keeps the version the runner resolves if and only if it keeps as many as tie for newest |
| `Versions.TieLosesLatest` | packages/compact/src/version-manager.ts:55-60 | keeping one of any two tied versions deletes the one that the runner takes |
| `Versions.LatestKeptWithoutTies` | packages/compact/src/run-utils.ts:41-60 | without ties the resolved version is the last listed one, before and after |
| `Versions.ParseArgs` | packages/compact/src/fetch-utils.ts:27-52 | a clean-up count is positive and comes from the last argument that gives one, the version from the last `--version=` argument; flags are set if and only if present |
| `Versions.ParseIntMeaning` | packages/compact/src/fetch-utils.ts:44-44 | the number behind white space and sign, up to the first character that is no digit; none without a digit |
| `Versions.CleanupArgument` | packages/compact/src/fetch-utils.ts:44-48 | `--cleanup=` and a printed positive number set that number, zero sets nothing |
| `Versions.VersionArgument` | packages/compact/src/fetch-utils.ts:40-41 | `--version=` sets what stands before the next equals sign |

## Left out

- Text: strings are sequences of characters without lone surrogates, counted by code point where JavaScript counts UTF-16 units, so that a character beyond U+FFFF can change which hex error is reported; JSON escapes of surrogate pairs are refused, which `JSON.parse` reads; JSON is read and written without insignificant white space and with integer numbers, and property names that are array indices, which JavaScript reorders, do not occur in coins.
- Numbers: overflow to Infinity, NaN and negative zero; fractions but for the values a range is asked about, whose bounds are integer-valued; a host's numbers are an opaque type. Which digits an engine picks when several shortest ones denote a double is taken to be the closest, the even ones at a tie.
- An empty signing key: JavaScript takes it for none where `findDeployedContract` is given one or `getSigningKey` returns one, and here it is a key like any other.
- The ledger: proving, balancing, signatures, fees and segments. Ledger objects stand for the arguments they were built from, and an offer's deltas are read through `Delta`, so an explicit zero entry is not told from a missing one. Checks the ledger makes when merging offers are not part of this model.
- `ArgumentProperties.TransformSound`: leaves out type references other than `Uint8Array`, which the code turns into `undefined`, and object literals without properties, for which `null` passes; property names are identifiers other than `length`.
- `ArgumentRoundTrip.RoundTrip`: JSON5 enters by the laws in `Laws`; its full grammar is not modelled.
- `AuthoritySafety.CounterNeverDecreases`: only transactions built by these functions are on the chain; updates by other software are not part of this model.
- `KeyAgreement.KeyAgreement`: assumes that the client finds its contract only after it has stored a key, without bringing one, that a replacement names another key than it is signed with, and that nobody else maintains the contract; `KeyPolicies.AgreementIff` shows all four to be needed.
- `KeyRecovery.RecoveryIff`: the find is made while the listed verifier keys match; otherwise it throws before it stores anything.
- `VerifierKeyTable.OverwriteIff`: the node is assumed not to check for itself whether an operation is defined.
- Addresses in the transition system are taken as already validated; `Session` makes the check.
- `zswapStateToNewCoins`, `encryptionPublicKeyForzswapState`: a filter and a comparison.
- The level-database provider, GraphQL transport, polling and retries, the TypeScript compiler API, Bech32m decoding, network-id conversions, and downloading compilers.
- `deployContract` and the transaction interfaces, which only pass options on; `serializeZKConfig`, which writes byte arrays without lengths.
- Streams of type `all`, whose start the indexer decides; errors and completion of streams.
