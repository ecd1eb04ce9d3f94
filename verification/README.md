# KaChat indexer: a verified model

This project models two parts of the KaChat indexer in Dafny and proves what they promise.

**The `.kachat` name registry.** The engine (`kachat-names`) follows a DAG's virtual chain and tracks the
registry's outputs: gaps in the key space, names, offers and price shards, plus one profile per address. Every
accepted transaction is applied to the tracked set in place and journaled, so that a reorg can undo whole chain
blocks. The follower service (`kachat-names-follower`) drives it batch by batch, writes the live set and the journal
to a database, and can rebuild the set from a REST history when the node no longer has the blocks.

**KaPosts convergence** (`kachat-transaction-processor`). Transactions reach several workers in any order, repeated,
and across restarts; the handlers are meant to leave what the chain says.

## How it is laid out

| files | what they hold |
|---|---|
| `Base`, `Codec`, `Script`, `Pushes`, `States`, `Text` | bytes and integers, the state codecs, script numbers, push scripts, hex and decimal text |
| `Transition`, `Ingest`, `Registry` | what a transaction does, first as functions on values, then as the in-place engine proved against them |
| `Undo`, `Chain`, `Follower`, `ReorgLimits` | exact undo, runs with reorgs against a replay of the current chain, and where undo stops being exact |
| `Calls`, `Effects`, `Registering` | what a transaction's inputs call, said of their bytes, and what every entry leaves tracked, field by field |
| `Claiming`, `Tiling`, `Verified`, `Reachable` | what holds in every reachable state |
| `LastWrite`, `Profiles` | last write wins, and the profiles as an instance |
| `Confluence`, `Lawful`, `Bootstrap` | the order-independence of the rebuild, its gate derived from what contracts and consensus enforce, and the rebuild itself |
| `Journal`, `Store`, `Service`, `Restarts`, `Coverage` | the stored journal, the stored rows, the service's turn, runs of turns, restarts and fresh starts, and which reorgs they undo |
| `Ledger`, `Convergence` | the shared signature ledger, and exactly when the order of processing shows |
| `Tombstones`, `Relations`, `Votes`, `ProfileBroadcasts`, `Edits` | the KaPosts handlers |
| `Pending`, `Recovery` | the retry queue and the recovery of missed transactions |

The registry engine, the follower, the report of a rebuild, the database, the service and the KaPosts tables are
classes whose methods update their fields, as in the source; each method's `ensures` gives its whole new state as a
function of the old one, and the theorems are about those functions. Hashes, the curve check, the text formats carried
in payloads and the order of an unordered map are function parameters (`Ingest.Host`); no hash is assumed injective.
The node's and the REST API's answers are arbitrary inputs. Each SQL statement is one atomic step, each SQL transaction
one atomic write. Numbers are unbounded except where width matters: `i64` arithmetic wraps as a release build's does,
shifts wrap at 64 bits, input indexes are cut to 16 bits, row indexes to 32.

## What the proofs say about the code

These came out of stating the properties at full strength. Each has a lemma.

- **A post can survive its author's delete when a worker is stopped.** All interleavings of the statements are safe, but
  if a worker is stopped after saving a post and before it looks for a delete again, and the delete had looked for the
  post earlier, then the retried save finds the tombstone first and returns without looking at the post
  (`Tombstones.InterruptedSaveSurvives`). `Tombstones.DoomedGoesWhenOwed` is the exact condition: a deleted post that is
  there goes if and only if some worker still owes its removal.
- **A vote can outlive the post it is for.** A vote looks for its post in one statement and is written in a later one;
  when an author's delete falls between, the vote row stays for a post that is gone (`Tombstones.LateVoteStays`).
  `Tombstones.StrayVotesExactly` is the exact condition, and `Tombstones.DeletedLeavesNothing` says nothing else stays.
- **`journal_has_block` is too weak a guard.** It asks for one entry of a removed block. A block with two journaled
  transactions of which one was pruned passes it, and the undo leaves the other applied
  (`ReorgLimits.OneEntryIsNotEnough`). `Chain.UndoExact` says exactly what any retained journal undoes.
- **How far back a reorg can be undone, said of the chain alone.** While its chain never loses journaled transactions, a
  running follower undoes every reorg that removes at most `keep` of them (`Chain.GrowingIsProper`). Through restarts
  the same holds when profile records are counted with them, accepted or not, because a restart forgets profiles and
  journals old records again (`Coverage.GrowingLifeFollows`).
- **Undoing oldest first is wrong exactly when the later block spends an output of the earlier one**
  (`ReorgLimits.OldestFirst`).
- **The one value the state encoding cannot hold is the `i64` minimum.** It is written as negative zero and read back
  as 0; every codec's round trip, and the stored journal's, holds if and only if no number is that value.
  Script-number arguments do carry it, through a wrapped shift (`Script.ScriptNumberRoundTrip`).
- **A signature copied into a later transaction makes the outcome depend on order.** The ledger gives a signature to the
  transaction that is processed first, not to the one that is first on chain. With an author's action, a later copy of
  it, and an opposite action between the two, the copy decides when it is processed first
  (`Relations.ReplayDecides`, `Votes.ReplayDecides`, `ProfileBroadcasts.ReplayDecides`, `Edits.ReplayDecides`).
- **Order matters exactly when the choices disagree.** For any stream over any ledger, what is there is the newest action
  among those whose transaction the ledger admits, and it is the same in every order if and only if every way to give
  each signature to one of its transactions has newest actions that look the same
  (`Convergence.OrderMattersExactly`). Without replays that leaves ties at the top: two opposite follows in the same
  newest instant go to whichever is processed last, and nothing else depends on order
  (`Relations.ConvergesWithoutTies`, `Votes.VotesConverge`, `ProfileBroadcasts.ProfilesConverge`,
  `Edits.EditsConverge`, all both directions).
- **A comment and its code differ.** Consumed recovered rows are said to go a week after a worker consumed them; the
  statement compares the time they were stored. The model follows the statement: when a row was consumed plays no part
  (`Recovery.WeekCountsFromStorage`), and one that waited longer than a week can go the moment it is consumed
  (`Recovery.GoneWhenConsumed`).

## Model

| member | source | states |
|---|---|---|
| Codec.Num8RoundTrip | kachat-names/src/lib.rs:73-93 | an `i64` survives its 8-byte state encoding if and only if it is not the minimum, which is written as negative zero |
| Codec.Num8BytesRoundTrip | kachat-names/src/lib.rs:73-93 | eight bytes are the encoding of what they decode to if and only if they are not negative zero |
| Codec.Num8Injective | kachat-names/src/lib.rs:73-80 | different numbers have different encodings |
| Codec.Num8Bytes | kachat-names/src/lib.rs:73-80 | the eight bytes are the magnitude, least byte first, under the sign in the top bit |
| Script.DecodeScriptNumber | kachat-names/src/lib.rs:129-145 | the accumulating loop, with its wrapped shifts, computes `ScriptNumber` for any length |
| Script.ScriptNumberExact | kachat-names/src/lib.rs:129-145 | on at most eight bytes the decoder returns the sign-magnitude value |
| Script.ScriptNumberRoundTrip | kachat-names/src/lib.rs:117-145 | every `i64` is decoded from its minimal script number; only the minimum needs nine bytes |
| Pushes.ReadPush | kachat-names/src/lib.rs:150-196 | one step of the parser reads exactly the first token or refuses |
| Pushes.ParsePushes | kachat-names/src/lib.rs:150-196 | the parsing loop returns all tokens, or None on a non-push opcode or a truncated push |
| Pushes.DecodeSigScript | kachat-names/src/lib.rs:209-225 | the last two pushes are the redeem script and a 4-byte tag, the rest the arguments |
| Pushes.TokensOfPrint | kachat-names/src/lib.rs:150-196 | the parser inverts the minimal push printer on every token list, whatever follows |
| Pushes.TokensOfConcat | kachat-names/src/lib.rs:150-196 | parsing a concatenation is concatenating the parses |
| Pushes.TruncationRefused | kachat-names/src/lib.rs:150-196 | a script cut anywhere inside its last token is refused |
| Pushes.SignatureRoundTrip | kachat-names/src/lib.rs:209-225 | printed arguments, tag and redeem are recovered exactly |
| States.GapRoundTrip | kachat-names/src/lib.rs:280-290 | gap bytes and gap states correspond one to one |
| States.StateBytes | kachat-names/src/lib.rs:280-370 | the bytes of each of the four states, each field in its place behind its width byte |
| States.NameRoundTrip | kachat-names/src/lib.rs:292-320 | a name state survives encoding if and only if none of its numbers is the `i64` minimum |
| States.NameInjective | kachat-names/src/lib.rs:292-300 | different name states have different bytes |
| States.NameBytesRoundTrip | kachat-names/src/lib.rs:292-320 | name bytes without a negative zero are the encoding of what they decode to |
| States.OfferLayoutsDiffer | kachat-names/src/lib.rs:339-355 | no bytes are both a v2 and a v3 offer |
| States.OfferRoundTrip | kachat-names/src/lib.rs:328-355 | either offer survives if and only if its refund score is not the `i64` minimum |
| States.OfferInjective | kachat-names/src/lib.rs:328-337 | different offers, of either version, have different bytes |
| States.PriceRoundTrip | kachat-names/src/lib.rs:358-384 | a price shard survives if and only if none of its numbers is the `i64` minimum |
| States.EncodePrice | kachat-names/src/lib.rs:359-370 | the encoder's loop writes the fixed layout |
| States.DecodePrice | kachat-names/src/lib.rs:371-384 | the decoder's loop and length check read exactly the fixed layout |
| States.PaddingRoundTrip | kachat-names/src/lib.rs:322-325 | a valid name is recovered from its 32-byte padding |
| Transition.TransitionLaws | kachat-names/src/transition.rs:144-227 | merging undoes a split at any key; a transfer, as also a sale and an accepted offer, makes the new owner the owner and ends a listing, the last owner stands, and transferring back restores an unlisted name; listing and renewal are independent; renewing then extending is renewing for the sum, wrap-around included |
| RegistryEngine.Registry.FindOutput | kachat-names/src/ingest.rs:354-369 | returns the first unclaimed output with the script and, when bindings are known, the covenant binding; claims it |
| RegistryEngine.Registry.Track | kachat-names/src/ingest.rs:747-773 | a derived state is tracked at that output, or nothing changes |
| RegistryEngine.Registry.CollectSpends | kachat-names/src/ingest.rs:382-396 | exactly the inputs that spend a tracked output with a readable signature script under a known entry, in order |
| RegistryEngine.Registry.UpdateShards | kachat-names/src/ingest.rs:574-581 | a price change claims a continuation for every shard spent, each under its own input |
| RegistryEngine.Registry.ApplyPriceSpend | kachat-names/src/ingest.rs:557-592 | one shard spend: use, update, or nothing for follow and malformed updates |
| RegistryEngine.Registry.ApplyPriceSpends | kachat-names/src/ingest.rs:541-594 | all shard spends in order, nothing without a price covenant |
| RegistryEngine.Registry.ApplyMint | kachat-names/src/ingest.rs:666-745 | register and import: both gaps and the name, in that order, from decodable arguments and a valid name only |
| RegistryEngine.Registry.ApplyMerge | kachat-names/src/ingest.rs:460-475 | an exit's two gaps are merged under the first gap's input |
| RegistryEngine.Registry.ApplyNameSpends | kachat-names/src/ingest.rs:487-539 | each spent name's continuation, and a v2 accepted offer's name to its buyer; what those are for each entry is `Effects.NameContinues` and `Effects.AcceptHandsOver` |
| RegistryEngine.Registry.ApplySpends | kachat-names/src/ingest.rs:430-539 | price spends, then an exit, a register, an import or the name continuations, in that precedence |
| RegistryEngine.Registry.ApplyOfferMarker | kachat-names/src/ingest.rs:778-821 | an announced offer is tracked at the first covenant-free output that carries it |
| RegistryEngine.Registry.ApplyProfile | kachat-names/src/ingest.rs:827-847 | a valid record of the address's own replaces an older one; returns what undo needs; which record shows, over whole runs, is `Profiles.NewestRecordShows` |
| RegistryEngine.Registry.Apply | kachat-names/src/ingest.rs:377-428 | the new tracked set, profiles and journal are `Ingest.Apply` of the old ones |
| RegistryEngine.Registry.ApplyProfileOnly | kachat-names/src/ingest.rs:598-602 | only the profile rules, journaled when accepted |
| RegistryEngine.Registry.Revert | kachat-names/src/ingest.rs:618-634 | added outputs go, spent states come back, the profile is restored |
| RegistryEngine.Registry.UndoBlock | kachat-names/src/ingest.rs:606-635 | exactly the block's entries leave the journal and are reverted, newest first |
| RegistryEngine.Registry.PruneJournal | kachat-names/src/ingest.rs:639-644 | what is left is the newest entries, as many as the limit, or all when there are fewer |
| RegistryEngine.Registry.JournalHasBlock | kachat-names/src/ingest.rs:662-664 | true if and only if some entry is of the block |
| Undo.RevertApplyUtxos | kachat-names/src/ingest.rs:377-428 | reverting a fresh transaction's entry gives back exactly the tracked set it met |
| Undo.RevertApplyProfiles | kachat-names/src/ingest.rs:827-847 | and exactly the profiles it met |
| Undo.JournalIsTheChange | kachat-names/src/ingest.rs:377-428 | a fresh transaction journals one entry, of its block, if and only if it changed the tracked set or the profiles, and the entry lists exactly the outpoints that came and the states that went |
| Undo.StatesAreFinal | kachat-names/src/ingest.rs:377-428 | over any run of new ids a tracked state never changes and a spent output never returns |
| Undo.RewindRun | kachat-names/src/ingest.rs:606-635 | reverting the newest entries down to any journal length gives a point of the run with that journal, transactions spending one another's outputs included |
| Chain.BlockUndone | kachat-names/src/ingest.rs:377-428 | applying a block's transactions, however they spend one another's outputs, then undoing the block gives back tracked set, profiles and journal exactly |
| Chain.UndoTip | kachat-names/src/ingest.rs:606-635 | undoing the last block of a chain with whatever journal is left |
| Chain.UndoExact | kachat-names/src/ingest.rs:606-644 | undoing any number of blocks newest first is exact if the journal covers them, and otherwise stops at the oldest transaction it covers |
| Chain.StepFollows | kachat-names/src/follower.rs:58-72 | one batch whose removed blocks are covered keeps the registry on the chain; of the new chain's journal it has all that was left and not more than the newest `keep` entries, exactly |
| Chain.RunFollowsChain | kachat-names/src/follower.rs:58-72 | for every run over batches with reorgs, said of batches and chains alone, tracked set and profiles are the seed with the current chain's transactions applied, and of its journal exactly the most ever pruned is missing |
| Chain.MostPrunedIsMost | kachat-names/src/ingest.rs:639-644 | what a run lets go of is the longest chain's journal but its newest `keep` entries |
| Chain.StepKeepsNewest | kachat-names/src/ingest.rs:639-644 | after a step the journal is the suffix, of length `keep` or all, of what undoing and applying left |
| Chain.GrowingIsProper | kachat-names/src/follower.rs:58-72 | while the chain's journal never gets shorter, every reorg that removes at most `keep` entries is covered |
| ReorgLimits.OneEntryIsNotEnough | kachat-names-follower/src/main.rs:558-570 | with a block's entries partly pruned the guard passes and the undo is wrong, whatever the two transactions |
| ReorgLimits.OldestFirst | kachat-names/src/follower.rs:58-62 | two blocks undone oldest first restore the tracked set if and only if the later spends no output the earlier made |
| FollowerLoop.Follower.Seed | kachat-names/src/follower.rs:42-45 | the genesis gap is tracked and the checkpoint is the scan-from block |
| FollowerLoop.Follower.SeedShards | kachat-names/src/follower.rs:49-53 | each listed shard is tracked, the last listed for its outpoint |
| FollowerLoop.ShardsSeeded | kachat-names/src/follower.rs:49-53 | and nothing but the listed outpoints changes |
| FollowerLoop.Follower.Step | kachat-names/src/follower.rs:58-72 | a failed source changes nothing; otherwise undo, apply, move the checkpoint, prune to the newest `keep` entries |
| FollowerLoop.Follower.StepProfiles | kachat-names/src/follower.rs:79-90 | the same with the profile rules alone; returns the ids of the accepted records, or that the source failed |
| FollowerLoop.Follower.FollowProfiles | kachat-names/src/follower.rs:79-90 | any run of batches of the profiles follower, as a function of the registry it started from |
| FollowerLoop.Follower.Follow | kachat-names/src/follower.rs:58-72 | stepping through any proper run leaves exactly the current chain's tracked set and profiles |
| Claiming.GreedyClaims | kachat-names/src/ingest.rs:354-369 | if every continuation has some output of its own, first-match claiming finds one for each |
| Tiling.ValidEffect | kachat-names/src/ingest.rs:377-594 | a contract-valid transaction leaves each owed state at its own output, the unspent ones, and besides at most an offer |
| Tiling.ApplyKeepsTiling | kachat-names/src/ingest.rs:377-539 | a contract-valid transaction keeps the gaps one chain whose inner boundaries are the live names' keys |
| Tiling.RunKeepsTiling | kachat-names/src/ingest.rs:377-539 | so does any run of them |
| Tiling.GenesisTiles | kachat-names/src/ingest.rs:313-331 | the seeded genesis gap, with any shards, is such a chain |
| Registering.RegisterTracked | kachat-names/src/ingest.rs:666-707 | a register at any input, with valid text and an output for each continuation, whatever its argument pushes and whatever price shards are used beside it: tracked exactly are the gap's two halves, the name with every field written out, and the shards' continuations, in place of what was spent, and nothing else changes but an announced offer |
| Registering.RegisterIsValid | kachat-names/src/ingest.rs:666-707 | with its key strictly inside the gap, every such register is what the tiling takes the contracts to allow |
| Registering.PrintedSigns | kachat-names/src/lib.rs:209-225 | a call whose arguments are pushed minimally, in any number of them, is read back as that call |
| Calls.EntryIsDispatched | kachat-names/src/transition.rs:107-126 | a tag calls an entry if and only if the manifest's list, or without one the pinned table written out, says so first |
| Calls.ClaimsOfCalls | kachat-names/src/ingest.rs:430-594 | the continuations a transaction claims are the ones its inputs' calls ask for, in the order and precedence the engine works in |
| Effects.OffersAreAnnounced | kachat-names/src/ingest.rs:778-821 | the new offers are exactly those a payload announces with usable keys, a refund score not negative, and a first covenant-free output that carries them |
| Effects.CallsTracked | kachat-names/src/ingest.rs:377-594 | a transaction whose asked-for continuations each have an output leaves each tracked there, its inputs gone, the rest as it was, and nothing else but announced offers |
| Effects.NameContinues | kachat-names/src/ingest.rs:487-539 | the name after a transfer, sale, listing, renewal or extension, every field written out, is tracked at an output that carries it |
| Effects.ShardContinues | kachat-names/src/ingest.rs:541-594 | every shard spent continues: with its own state when used, with the new authority and prices when changed |
| Effects.GapSplits | kachat-names/src/ingest.rs:666-745 | a register or an import splits the gap at the name's key, and the minted name's fields are written out |
| Effects.GapsMerge | kachat-names/src/ingest.rs:460-475 | an exit's two gaps become the one from the first's lower to the second's upper bound |
| Effects.AcceptHandsOver | kachat-names/src/ingest.rs:487-539 | a v2 accepted offer's name is tracked with the buyer as owner and no price, otherwise as it was, if an output left carries that, and else nothing changes |
| Tiling.OneNamePerKey | kachat-names/src/ingest.rs:317-326 | no two live names share a key |
| Tiling.OneMoreGap | kachat-names/src/ingest.rs:300-326 | there is exactly one gap more than names |
| Tiling.OneGapPerKey | kachat-names/src/ingest.rs:300-326 | every key of the key space lies in exactly one live gap |
| Reachable.ReachableIsTiled | kachat-names/src/follower.rs:58-72 | after any batches and reorgs over a contract-valid chain the tiling holds |
| Reachable.OneLiveOutputPerName | kachat-names/src/ingest.rs:666-745 | in every such state at most one output is tracked for a name's text, without assuming the key hash injective |
| Verified.RunEverywhere | kachat-names/src/follower.rs:58-72 | a property of states that applying keeps holds of the tracked set and the journal after any batches, in any order and depth |
| Verified.OnlyVerifiedIsTracked | kachat-names/src/ingest.rs:354-374 | every tracked state, and every state the journal could restore, was seeded or has the script of the output at its outpoint and, when bindings are known, the right covenant |
| Verified.NothingClaimedTwice | kachat-names/src/ingest.rs:354-369 | no output is claimed by two spends |
| Verified.NamesKeepFact | kachat-names/src/ingest.rs:666-776 | what holds of every new name's key and text holds of every name ever tracked or restorable |
| Verified.NamesStayNames | kachat-names/src/ingest.rs:687-728 | each tracked name field is a valid name, padded |
| Verified.PaddedIsSpelled | kachat-names/src/ingest.rs:687-728 | being a valid name, padded, is, byte for byte: one to 32 of a-z, 0-9 and hyphen with no hyphen at either end, then zeros |
| Verified.NamesStayKeyed | kachat-names/src/transition.rs:144-180 | each tracked name is under the key of its own text |
| Profiles.BothFollowers | kachat-names/src/ingest.rs:598-602 | the registry's and the profiles' follower keep the same profiles |
| Profiles.ProfilesFollowChain | kachat-names/src/follower.rs:79-90 | for every run with reorgs the profiles follower ends with the profiles of the current chain's transactions alone |
| Profiles.NewestRecordShows | kachat-names/src/ingest.rs:827-847 | over any run from no profiles, an address shows an entry if and only if some transaction had a readable record, that address as its first output's script and an input that spent from that same non-empty script; it is the record of these with the greatest accepting DAA score and id |
| Profiles.FollowerShowsNewest | kachat-names/src/follower.rs:79-90 | so it is, of the current chain's transactions alone, after any run with reorgs |
| Profiles.ProfilesDependOnSet | kachat-names/src/ingest.rs:827-847 | any order and any repeats give the same profiles |
| Profiles.SeenAgain | kachat-names/src/ingest.rs:827-847 | a transaction seen again changes nothing |
| Confluence.CoreApply | kachat-names/src/ingest.rs:377-428 | on gaps, names and shards a transaction acts independently of the tracked offers |
| Confluence.Diamond | kachat-names-follower/src/bootstrap.rs:371-405 | two ready transactions of one chain commute, and each leaves the other ready |
| Confluence.GatedOrdersAgree | kachat-names-follower/src/bootstrap.rs:371-405 | any gated order of some of a chain's transactions, with none of the others spending a tracked output, ends where the chain ends |
| Confluence.RebuildMeetsChain | kachat-names-follower/src/bootstrap.rs:371-405 | the same for the engine's own runs: same gaps, names and shards |
| Confluence.OrderDoesNotMatter | kachat-names-follower/src/bootstrap.rs:371-405 | any two gated orders of the same transactions leave the same gaps, names and shards |
| Lawful.OursAreTracked | kachat-names/src/ingest.rs:354-428 | every output under our covenants that a contract-valid transaction leaves is tracked after it |
| Lawful.LawfulChainIsGated | kachat-names-follower/src/bootstrap.rs:371-405 | a chain of contract-valid transactions without stray covenant outputs passes the readiness gate at every transaction |
| Lawful.SpendsAgree | kachat-names-follower/src/bootstrap.rs:371-405 | in any gated order a transaction spends the gaps, names and shards, in the states, that it spends where it stands in the chain |
| Lawful.OrderCoSpends | kachat-names-follower/src/bootstrap.rs:371-405 | in any gated order of such a chain's transactions, every accepted offer comes with the name's own transfer |
| Lawful.LawfulRebuildMeetsChain | kachat-names-follower/src/bootstrap.rs:371-405 | the rebuild meets the chain with nothing assumed of the gate or of accepted offers beyond what contracts and consensus enforce along the chain |
| Bootstrap.Sorted | kachat-names-follower/src/bootstrap.rs:377-378 | the candidates, each once, by DAA score, block time, and the first byte in which their ids differ |
| Bootstrap.ByAddress | kachat-names-follower/src/bootstrap.rs:327-332 | every tracked output is filed under the address of its script, nothing else is, and the round fails only for want of an address |
| Bootstrap.AddressHistory | kachat-names-follower/src/bootstrap.rs:278-305 | only spenders of wanted outputs, each once, all of those in the pages read; stops only when all are found, the history ends, or at 100 pages; fails only at a page that failed |
| Bootstrap.Gather | kachat-names-follower/src/bootstrap.rs:343-369 | the history of every address with a spent output is searched; every transaction there that spends one is applied already, was called forged, or is a candidate; found outputs and rejections are counted |
| Bootstrap.Search | kachat-names-follower/src/bootstrap.rs:335-378 | one round's search takes in the spenders of every tracked output that the node no longer has, and leaves none out but the applied and the forged |
| Bootstrap.ApplyPass | kachat-names-follower/src/bootstrap.rs:380-401 | one pass applies the ready transactions in order, each ready where it is applied; no progress means nothing changed and none is ready |
| Bootstrap.ApplyReady | kachat-names-follower/src/bootstrap.rs:379-405 | passes until none is ready |
| Bootstrap.Walk | kachat-names-follower/src/bootstrap.rs:312-416 | each transaction is applied once, ready, and not forged; on Ok nothing is unresolved if and only if the node's last answer had every tracked output unspent, and otherwise nothing that could be applied was left; it fails only when an answer is missing or after 512 rounds that each applied something |
| Bootstrap.NoneReadyIsLeft | kachat-names-follower/src/bootstrap.rs:278-416 | when a walk ends with something unresolved, the pages read of the address of any spent tracked output, to their end or 100 of them or a spender for each, hold no spender of it that is ready, not applied and never called forged |
| Bootstrap.Attempt | kachat-names-follower/src/main.rs:461-526 | up to four walks resume one another; the checkpoint moves to the sink exactly when the rebuild is complete, and otherwise a walk was cut off or the fourth left nothing it could apply |
| Bootstrap.CompleteRebuildIsExact | kachat-names-follower/src/main.rs:461-515 | a complete rebuild has exactly the gaps, names and shards of the chain, for every chain of contract-valid transactions and truthful answers |
| Text.NumbersRoundTrip | kachat-names-follower/src/store.rs:295-308 | the comma-separated prices column reads back to the numbers written |
| Journal.TrackedRoundTrip | kachat-names-follower/src/store.rs:210-228 | a state survives storing if and only if it holds no `i64` minimum |
| Journal.DecodeJournal | kachat-names-follower/src/store.rs:253-267 | the decoding loop returns every entry, or None if any does not decode |
| Journal.JournalRoundTrip | kachat-names-follower/src/store.rs:230-267 | the stored journal reads back to the journal without profile undo and empty entries, if and only if no state it would restore holds the `i64` minimum |
| Journal.UndoFromStored | kachat-names-follower/src/store.rs:230-267 | undoing any blocks from the stored journal gives the live journal's tracked set |
| Store.RowRoundTrip | kachat-names-follower/src/store.rs:270-455 | a row reads back to its state if and only if its name field is the padding of its own text |
| Store.RowsLoadBack | kachat-names-follower/src/store.rs:270-455 | the rows of a live set of valid names load back to it |
| Store.Database.Persist | kachat-names-follower/src/store.rs:348-457 | one write: all rows, the history of removed blocks and new events, the journal, the checkpoint |
| Store.Database.Load | kachat-names-follower/src/store.rs:270-343 | rows in any order, unknown kinds skipped; an unreadable journal is dropped |
| Store.Database.Rewind | kachat-names-follower/src/store.rs:187-200 | live set, history, journal and checkpoint are gone |
| Store.Database.Restart | kachat-names-follower/src/store.rs:270-457 | after a write and a restart the tracked set is the same, and undoing any blocks gives what it would have given |
| Service.QuietBatch | kachat-names-follower/src/main.rs:626-630 | a batch after which the same outpoints are tracked changed none of their states |
| Service.Service.constructor | kachat-names-follower/src/main.rs:391-412 | resumes from the stored checkpoint, or seeds from the manifest with a rewrite due |
| Service.Service.CannotUndo | kachat-names-follower/src/main.rs:564-570 | true if and only if some removed block has a stored event and no journal entry |
| Service.Service.StartOver | kachat-names-follower/src/main.rs:571-595 | the database is emptied and the follower is the manifest's seed |
| Service.Service.Turn | kachat-names-follower/src/main.rs:564-694 | what is in memory and what a restart would load after the turn are a function of what they were before it and the batch: start over, full write, or status alone, the status alone only when the batch removed nothing and had no event; after every ordinary turn the rows load back to the tracked set at the stored checkpoint |
| Service.Restart | kachat-names-follower/src/main.rs:391-412 | a new process on the same database has the stored registry, or the manifest's seed while nothing was ever written |
| Restarts.UndoLive | kachat-names/src/ingest.rs:606-644 | a registry that has only the entries that change the tracked set undoes the removed blocks exactly, as long as it has all of theirs |
| Restarts.StepFollowsLive | kachat-names/src/follower.rs:58-72 | such a registry stays on the chain through a batch |
| Restarts.QuietKeepsJournal | kachat-names-follower/src/main.rs:626-630 | a batch that leaves the tracked set as it was and announces no offer adds nothing to the journal that a restart would need |
| Restarts.LifeFollowsChain | kachat-names-follower/src/main.rs:391-694 | over any run of batches with reorgs, full and status-only writes, restarts and fresh starts, the tracked set in memory and the one a restart would have are the followed chain's |
| Restarts.Live | kachat-names-follower/src/main.rs:391-694 | the service object itself over any such run ends at the tracked set of the chain it followed |
| Coverage.GrowingLifeFollows | kachat-names-follower/src/main.rs:391-694 | over any run of batches, restarts and fresh starts in which the chain never loses transactions that matter and a batch removes at most `keep` of them, memory and restart track the followed chain: what is assumed of reorgs is said of the chains alone |
| Coverage.StepCovers | kachat-names/src/ingest.rs:606-644 | a batch keeps, through the prune, every entry a later reorg of that depth needs |
| Coverage.UndoneInBlocks | kachat-names/src/ingest.rs:606-635 | undoing blocks takes their entries off the journal's end, no more than their transactions that matter |
| Tombstones.DoomedIsOwed | kachat-transaction-processor/src/k_protocol.rs:2813-2823 | at every statement, a deleted post that is there has a worker that owes its removal |
| Tombstones.DeletedIsGone | kachat-transaction-processor/src/k_protocol.rs:2704-2823 | for any number of savers, deleters and voters, any interleaving, and restarts anywhere but between a save and its second look: once all finish, no post is there that its author deleted |
| Tombstones.DeletedLeavesNothing | kachat-transaction-processor/src/k_protocol.rs:2704-2823 | and no mention in it, and no vote for it but one written after it went |
| Tombstones.MentionsGoWithPosts | kachat-transaction-processor/src/k_protocol.rs:2775-2794 | in every run, stops anywhere, the mention rows are exactly those of the posts that are there |
| Tombstones.StrayVotesExactly | kachat-transaction-processor/src/k_protocol.rs:2320-2338 | a vote for a post that is not there stands if and only if it was written after its post went and the post was neither saved nor deleted since |
| Tombstones.LateVoteStays | kachat-transaction-processor/src/k_protocol.rs:2320-2338 | the run in which a vote outlives its post |
| Tombstones.RemovalIsAudited | kachat-transaction-processor/src/k_protocol.rs:2750-2764 | a delete that takes a post away has its audit row, under the author |
| Tombstones.ForeignDeletesDoNothing | kachat-transaction-processor/src/k_protocol.rs:2704-2794 | other signers' deletes remove neither the post nor its votes and mentions |
| Tombstones.DoomedGoesWhenOwed | kachat-transaction-processor/src/k_protocol.rs:1090-1097 | from any point, a deleted post that is there goes if and only if some worker owes its removal |
| Tombstones.InterruptedSaveSurvives | kachat-transaction-processor/src/k_protocol.rs:1090-1097 | the run in which a stopped save keeps a deleted post |
| Ledger.FreshWithoutReplays | kachat-transaction-processor/src/k_protocol.rs:3622-3664 | without replays every processing of an action counts as first use |
| Ledger.FirstUseWins | kachat-transaction-processor/src/k_protocol.rs:3622-3664 | once recorded, a signature lets only its own transaction through |
| Ledger.AfterIsChoice | kachat-transaction-processor/src/k_protocol.rs:3622-3664 | whatever the order, the ledger ends as a choice of one transaction for each signature, and what it had stays |
| Ledger.AdmittedIsFirstUse | kachat-transaction-processor/src/k_protocol.rs:3622-3664 | after a stream an action is admitted if and only if the ledger had its signature for its transaction, or for none and the first action with the signature is of its transaction |
| Convergence.StandingIsNewest | kachat-transaction-processor/src/k_protocol.rs:3615-3691 | what an order leaves standing is the newest of the actions whose transaction the ledger admits |
| Convergence.StandingIsAt | kachat-transaction-processor/src/k_protocol.rs:3615-3691 | what stands is the action at the one position that is first to use its signature, is taken, and that no such action beats, ties going to the last or the first processed |
| Convergence.OrderMattersExactly | kachat-transaction-processor/src/k_protocol.rs:3615-3691 | what is shown is the same in every order and with any repeats if and only if every choice of one transaction per signature has newest actions that look the same |
| Relations.Database.Process | kachat-transaction-processor/src/k_protocol.rs:3308-3612 | one follow, unfollow, block or unblock: signature ledger, recency record, row |
| Relations.Database.RelationIsNewest | kachat-transaction-processor/src/k_protocol.rs:3666-3691 | records the action unless a later one is known for the pair, and says which |
| Relations.RowFollowsNewest | kachat-transaction-processor/src/k_protocol.rs:3344-3612 | from any ledger and for any stream, replays included: the recorded action is the newest the ledger admits, and a row is there if and only if it was a follow or block |
| Relations.RowByPosition | kachat-transaction-processor/src/k_protocol.rs:3344-3612 | the same with every condition of the handlers written out: signed, of this kind, sender and target, and a follow only of a KaChat identity |
| Relations.RowsNameActions | kachat-transaction-processor/src/k_protocol.rs:3344-3612 | a row is that of one of the pair's own verified follows or blocks |
| Relations.ConvergesExactly | kachat-transaction-processor/src/k_protocol.rs:3344-3612 | whether a row is there is independent of order and repeats if and only if all choices of a transaction per signature agree |
| Relations.RowShowsNewest | kachat-transaction-processor/src/k_protocol.rs:3344-3612 | without replays among verified signatures, and the newest actions agreeing, a row is there if and only if the newest action on chain is a follow or block |
| Relations.ConvergesWithoutTies | kachat-transaction-processor/src/k_protocol.rs:3344-3612 | without replays among verified signatures, whatever else the shared ledger holds of them, the outcome is independent of order and repeats if and only if the newest actions of the pair agree |
| Relations.ReplayDecides | kachat-transaction-processor/src/k_protocol.rs:3615-3664 | with an action, a later copy of its signature and an opposite action between them, processing the copy first gives the opposite outcome |
| Relations.Database.ProcessStream | kachat-transaction-processor/src/worker.rs:33-43 | the worker's loop over any stream, as a function of the tables it started from |
| Votes.Database.Save | kachat-transaction-processor/src/k_protocol.rs:2244-2395 | one up or down vote: replaced rows and their mentions go, the new row and mention come unless a unique index objects |
| Votes.Database.SaveAll | kachat-transaction-processor/src/worker.rs:33-43 | the worker's loop over any stream of votes, as a function of the tables it started from |
| Votes.NewestVoteStands | kachat-transaction-processor/src/k_protocol.rs:2338-2395 | for any ledger and stream, one row per x-only key and post, the newest vote the ledger admits, with its mention |
| Votes.VoteByPosition | kachat-transaction-processor/src/k_protocol.rs:2324-2395 | a post's rows for the last 32 bytes of a key are, column by column, the vote that stands by its place in the stream, with its mention |
| Votes.MentionsMatchRows | kachat-transaction-processor/src/k_protocol.rs:2338-2395 | after any stream mention rows and vote rows correspond one to one |
| Votes.VotesConverge | kachat-transaction-processor/src/k_protocol.rs:2338-2395 | without replays, a ballot's rows are independent of order and repeats if and only if no two of its newest votes share their instant |
| Votes.VotesConvergeExactly | kachat-transaction-processor/src/k_protocol.rs:2338-2395 | a ballot's rows are independent of order and repeats if and only if all choices of a transaction per signature agree |
| Votes.ReplayDecides | kachat-transaction-processor/src/k_protocol.rs:3615-3664 | a vote copied into a later transaction stands over a newer vote when the copy is processed first |
| ProfileBroadcasts.Database.Save | kachat-transaction-processor/src/k_protocol.rs:2116-2228 | one broadcast: both signature ledgers, then the replacing statement |
| ProfileBroadcasts.NewestProfileStands | kachat-transaction-processor/src/k_protocol.rs:2195-2216 | for any two ledgers and stream, one profile per x-only key, the newest that the ledgers admit |
| ProfileBroadcasts.ProfileByPosition | kachat-transaction-processor/src/k_protocol.rs:2116-2228 | the profiles of a key, whatever its first byte, are the broadcast that stands by its place in the stream |
| ProfileBroadcasts.ProfilesConverge | kachat-transaction-processor/src/k_protocol.rs:2195-2216 | without replays, a key's profile is independent of order and repeats if and only if no two of its newest broadcasts share their instant |
| ProfileBroadcasts.ProfilesConvergeExactly | kachat-transaction-processor/src/k_protocol.rs:2195-2216 | a key's profile is independent of order and repeats if and only if all choices of a transaction per signature agree |
| ProfileBroadcasts.ReplayDecides | kachat-transaction-processor/src/k_protocol.rs:3615-3664 | a broadcast copied into a later transaction stands over a newer one when the copy is processed first |
| Edits.Database.Process | kachat-transaction-processor/src/k_protocol.rs:2500-2628 | one edit: author only, no polls, two-hour window, audit row, guarded update |
| Edits.LatestEditShows | kachat-transaction-processor/src/k_protocol.rs:2579-2621 | from any tables and any stream: the post shows the latest acceptable edit the ledger admits that is later than itself, or its original text |
| Edits.EditByPosition | kachat-transaction-processor/src/k_protocol.rs:2500-2621 | the post is as it was but for the text and time of the edit that stands by its place in the stream: by its author, no poll, within two hours, later than what shows, the first of one time |
| Edits.AuditIsOfAuthors | kachat-transaction-processor/src/k_protocol.rs:2579-2604 | posts come and go by no edit, audit rows stay, and a new one is an acceptable edit by its post's author |
| Edits.AuditIsComplete | kachat-transaction-processor/src/k_protocol.rs:2579-2604 | every acceptable edit let through has its audit row |
| Edits.EditsConverge | kachat-transaction-processor/src/k_protocol.rs:2606-2621 | without replays among these edits, whatever else the ledger holds, the text shown is independent of order and repeats if and only if the newest acceptable edits have one text |
| Edits.EditsConvergeExactly | kachat-transaction-processor/src/k_protocol.rs:2606-2621 | the text shown is independent of order and repeats if and only if all choices of a transaction per signature agree |
| Edits.ReplayDecides | kachat-transaction-processor/src/k_protocol.rs:3615-3664 | an edit copied into a later transaction shows instead of a newer edit when the copy is processed first |
| Pending.Retries.Enqueue | kachat-transaction-processor/src/bcast_pending.rs:69-92 | a new transaction is queued for five seconds later; a queued one keeps its schedule |
| Pending.Retries.SweepIn | kachat-transaction-processor/src/bcast_pending.rs:95-134 | the startup sweep queues what is not queued, due at once |
| Pending.Retries.Try | kachat-transaction-processor/src/bcast_pending.rs:178-238 | one lookup: resolved and exhausted rows go, a lost node leaves the row, else the next wait |
| Pending.Retries.Pass | kachat-transaction-processor/src/bcast_pending.rs:156-239 | a pass is its lookups in order, ended by losing the node |
| Pending.EventsTake | kachat-transaction-processor/src/bcast_pending.rs:53-239 | parking, sweeping and a lookup in milliseconds: five seconds, ten seconds doubling to five minutes, an hour and ten tries |
| Pending.RowsRemember | kachat-transaction-processor/src/bcast_pending.rs:53-60 | a row's attempts are its counted lookups, each at least the backoff after the one before |
| Pending.GivenUpWhenDue | kachat-transaction-processor/src/bcast_pending.rs:53-60 | giving up takes at least an hour and 10 counted lookups, and at most 17 |
| Pending.AtMostSixteen | kachat-transaction-processor/src/bcast_pending.rs:151-239 | a row still queued has had at most 16, and the seventeenth ends it |
| Recovery.Processor.WalkBlock | kachat-transaction-processor/src/reindex.rs:212-244 | each KaChat transaction of a block not indexed and not consumed is stored or refreshed, and queued |
| Recovery.WalkStores | kachat-transaction-processor/src/reindex.rs:212-244 | after a block exactly its KaChat transactions neither indexed nor consumed are queued, and stored as of now; all else is as it was |
| Recovery.Processor.RequeueUnconsumed | kachat-transaction-processor/src/reindex.rs:124-144 | a start that can read the table queues every unconsumed row, oldest first |
| Recovery.Processor.ProcessTransaction | kachat-transaction-processor/src/worker.rs:45-121 | how a worker ends with a transaction, retries included, and when it marks the row |
| Recovery.ReadByRetry | kachat-transaction-processor/src/worker.rs:99-121 | a retried transaction is processed if and only if the first read that found it found KaChat's payload and processed it; a retry never marks another protocol's |
| Recovery.OnlyProcessedIsConsumed | kachat-transaction-processor/src/worker.rs:80-97 | in every run with crashes, a row is consumed only after Ok processing or a payload that is not KaChat's |
| Recovery.StartQueuesAll | kachat-transaction-processor/src/reindex.rs:124-144 | every readable start queues every unconsumed row |
| Recovery.NoneForgottenSince | kachat-transaction-processor/src/reindex.rs:124-150 | until the next crash each unconsumed row is queued, held by a worker, or was tried |
| Recovery.NothingIsLost | kachat-transaction-processor/src/main.rs:303-319 | a stored transaction is at every later point processed, foreign, still to be queued, or older than 30 days |
| Recovery.WeekCountsFromStorage | kachat-transaction-processor/src/main.rs:309-319 | a row outlives a prune after it was consumed if and only if a reindex stored it in the week before that prune, whenever it was consumed |
| Recovery.MonthCountsFromStorage | kachat-transaction-processor/src/main.rs:303-319 | a row not consumed outlives a prune if and only if a reindex stored it in the 30 days before |
| Recovery.GoneWhenConsumed | kachat-transaction-processor/src/main.rs:309-319 | the run in which a row that waited eight days is pruned the moment it is consumed |

## Left out

- Events, their push messages, fees, values and creation times: no state depends on them except whether a batch had any events. The service's turn takes their blocks as an input; of them its run theorem takes only that an announced offer is among them.
- RegistryEngine.Registry.Track: the event it emits is not modelled.
- RegistryEngine.Registry.ApplyPriceSpend: the price change event is not modelled.
- RegistryEngine.Registry.ApplyMint: the register and import events are not modelled.
- RegistryEngine.Registry.ApplyNameSpends: the events of the continuations are not modelled.
- RegistryEngine.Registry.ApplySpends: the offer exit and release events are not modelled.
- RegistryEngine.Registry.ApplyOfferMarker: the offer event is not modelled; the marker's text is read by a host parameter.
- FollowerLoop.Follower.Step: returns whether there was a batch; the batch and events handed back are not modelled.
- Payload text: offer markers and profile JSON are read by `Host.offerMarker` and `Host.profileRecord`; JSON text itself, manifest reading and the REST row parser are outside, the journal is modelled over JSON values.
- Hashing, the curve check and transaction-id recomputation: parameters. `verify` is the `verdict` answer.
- The covenant scripts: what they and consensus check of a transaction is `Tiling.ContractValid` and, for its outputs, `Lawful.NoStrays`, used for the tiling and for the rebuild.
- Tiling.RunKeepsTiling: assumes an accepted offer is spent together with its name's own transfer; the registry v2 accept without one, which reads the whole map by key, is in the engine but not in the tiling.
- Registering.RegisterTracked: a register whose other tracked inputs are price shards in use; one beside other calls is `Effects.GapSplits`.
- Effects.NameContinues: transactions whose tracked inputs call no gap entry; a mint or an exit that also continues names is `Effects.CallsTracked`.
- Lawful.LawfulRebuildMeetsChain: for registries with a covenant id, because without one the readiness gate gates nothing; takes as given that a transaction spending a registry or price output has some covenant output.
- Offers in a rebuild: which offers are tracked depends on order and on what REST can show, so the rebuild theorem speaks of gaps, names and shards.
- Transactions the rebuild already applied and the chain carries again: the set that skips them is not modelled, nor half-finished rebuilds across restarts.
- Bootstrap.AddressHistory: rows arrive parsed; the shifting of rows between pages while paging is part of the arbitrary answers.
- RegistryEngine.Registry.Apply: returns no events; the source lists an entry's added outputs in an unordered map's order, the model by index. Undo does not depend on it.
- Service.Service.Turn: the blocks of the batch's events are an input; self-test, refuted rows, reminders and failures of a database statement are outside.
- Restarts.LifeFollowsChain: each reorg reaches no further than the entries at hand (`Coverage.GrowingLifeFollows` says for which chains that is so), because the guard before it does not ensure that (`ReorgLimits.OneEntryIsNotEnough`), and no state the journal restores holds the `i64` minimum; the bootstrap is not one of the happenings.
- Verified.OnlyVerifiedIsTracked: the authorizing input is some input of the transaction; that it is the one that spent the state is part of `Tiling.ValidEffect`.
- Bootstrap.NoneReadyIsLeft: for a REST API that serves one transaction under an id.
- Bootstrap.Attempt: the database write and the metadata of a finished rebuild are not modelled.
- Store.Database.Persist: values, creation times, refuted flags and the texts of history rows are not modelled.
- Store.Database.Load: metadata and the other status columns are not modelled; columns of the wrong length read as zeros as in the source; `String::from_utf8_lossy` is a parameter known only to keep ASCII.
- Tombstones.DeletedIsGone: signature checks, content policy and the signature ledger are the `accepted` flag of a save; hashtags and poll rows are not modelled.
- Tombstones.StrayVotesExactly: a vote is its key and post; its own mention row, filed under the vote's transaction, and the replacing of votes are in `Votes`.
- Relations.ConvergesWithoutTies: handlers run one after another, the "KaChat-related" gate is an input of each action; only whether a row is there converges, since a repeated follow keeps the first row.
- Relations.Database.Process: the operator's denylist mirror and action strings that are neither of the two are outside.
- Votes.VotesConverge: up and down votes only, one counting vote per transaction; the target-is-indexed gate depends on what is indexed already.
- Votes.Database.Save: `unvote` is outside.
- Edits.EditsConverge: for a post that is already indexed.
- Edits.Database.Process: mention rows an edit adds are not modelled.
- Pending.Retries.Pass: assumes the queue's own statements succeed; the order of rows due is any order.
- Pending.Retries.SweepIn: which transactions of the last hour are swept is an input.
- Recovery.Processor.WalkBlock: one block at a time; the paging cursor, the request and status keys and the startup catch-up of the last hour are outside.
- Notifications, retention of broadcasts, tips' sums, channel lists, the web and admin servers, schema creation and migration.
