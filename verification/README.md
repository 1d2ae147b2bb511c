# Verification of a Dogecoin inscription and dune indexer

This project models the parts of the indexer on which everything else rests,
in Dafny, and proves what they promise. Nothing here runs the indexer.

- **Block pool** (`BlockTypes`, `ChainSegment`, `SegmentProperties`,
  `PoolSteps`, `BlockPool`, `PoolInvariants`, `PoolRuns`, `PoolMeaning`,
  `PoolGuarantees`, `PoolConsumer`, `PoolLimits`, `TidyPools`, `SteadyPools`, `GivingUp`,
  `KeptBlocks`, `KeptStops`, `PoolWitness`, `KeptWitness`). Competing chain segments, waiting headers and
  a header store, updated in place by two classes whose methods are proved
  against functions on values. Main results: a follower that pops the headers to roll back and
  pushes the headers to apply always holds a chain that starts with the
  canonical segment, over every run up to the first diverging step; confirmed
  headers are never rolled back and make up one chain with the canonical
  segment; no reorganisation is deeper than five blocks. The pool's caller,
  with its gate, its downloads and the blocks it keeps, keeps an indexer in
  step until it gives up or stops, and exactly when it does either is proved.
- **Dunestone codec** (`Script`, `Varint`, `DuneId`, `Dunestone`,
  `DunestoneCodec`, `DunestoneProperties`, `DunestoneMeaning`). Stable sort, delta coding, tagged
  fields, varints (unsigned LEB128, section 7.6 of DWARF version 5, with a
  length cap) and script pushes. Main result: deciphering undoes enciphering,
  down to the bytes of the output script, if and only if the transaction can
  carry the dunestone; and for any message at all, exactly when it is a
  dunestone and which flaw is reported when it is not.
- **Ordered delivery** (`Delivery`, `DeliveryProperties`, `DeliveryProgress`). Eight readers, a
  channel and a reordering dispatcher as a state machine whose runs are all
  interleavings. Main result: the blocks sent are at every moment the readable
  ones from the start up to the cursor, in order and each once, and on exit without an abort the cursor is
  at the first gap of the listed heights; from a loaded queue every run without
  an abort can be continued until it stops.
- **Block bytes** (`BlockCursor`, `BlockCursorProperties`,
  `BlockCursorMeaning`, `BlkReader`, `BlkWriter`, `BlkReaderProperties`). The compact block encoding with its offset
  arithmetic, and the two transaction walkers. Main results: for every block,
  exactly when iteration undoes encoding; a raw transaction is read exactly
  when it was written; the skipping walker agrees with the
  parsing one exactly where it never turns back.
- **Inscription envelopes** (`Inscription`, `Envelope`, `EnvelopeProperties`,
  `TapscriptMeaning`, `InputScript`, `BatchReveal`, `WalletScript`). The script parser, the batch reveal script
  and the wallet's mint script. Main results: both printers are undone by the
  parser, with the exact conditions under which nothing is lost, and every
  inscription pushed behind the marker of an input script is found there.
- **Dune names and koinu** (`Dune`, `SpacedDune`, `DuneSchedule`, `Epoch`,
  `EpochProperties`). Names as bijective base 26, spacers as bits, the unlock
  schedule and its inverse, and the search for the block of a koinu over any
  strictly increasing table of starts.

`Wrappers`, `Sequences` and `Bytes` hold what the components share.
`dafny verify dfyconfig.toml` checks the whole project.

## How the code is modelled

- Code that changes things step by step is a method with loops, or a class
  whose methods change its fields; each is proved equal to a function on
  values, and the lemmas are about those functions. The threads of the block
  file pipeline are steps of a state machine.
- A block identifier is a height and an opaque hash, compared as a whole; the
  code compares hashes only, which is the same when a hash determines its
  block. Headers are well formed: height and parent are functions of the
  identifier. Hashes and transaction identifiers are opaque. The concrete runs
  give every block a hash of its own, and say so.
- Integers are unbounded and every width that matters is written out.
  Additions, subtractions and multiplications that are not checked wrap around,
  as in a build without overflow checks; a build with them stops instead.
- Reading past the end of block bytes, and a step that runs out of 32 bits,
  are error results where the code stops or does not terminate.

## What was found not to hold

- A header may be kept without an event, and a fork that selection would not
  choose stay canonical, when the forks no longer share their oldest block:
  `PoolWitness.RunDiverges` is a run from the new pool that does it,
  `PoolRuns.DivergesIff` the exact condition.
- A new fork may take the key of the canonical one, which is lost with its
  blocks: `PoolWitness.RunOverwrites` is such a run, and the canonical tip
  falls by three blocks in it. `PoolLimits.TipFallsIff` is the exact condition.
- The caller gives up on a branch whose lowest missing block does not get ahead
  at once, however long the branch is, where a comment in `pipeline/mod.rs`
  describes a branch that is followed. `GivingUp.GivesUpIff` is the exact
  condition; `GivingUp.BranchGivenUpIff` says how deep a branch off a line of
  blocks may start.
- A fork that was canonical before cannot come back: its blocks left the block
  store when they were applied, and the program stops on the missing block
  (`KeptWitness.FourArrivalsStop`; exact conditions `KeptStops.StopsAtIff` for
  one arrival and `KeptBlocks.StopsIff` for a run).
- The work queue of the block file pipeline is filled before any reader runs,
  and holds fewer items than are put into it, so that loading it blocks for
  every list of heights (`DeliveryProgress.LoadingBlocks`). What is proved about
  delivery is proved from a loaded queue on.
- A block of 16384 transactions does not survive the compact encoding, unless
  its first identifier begins with zero (`BlockCursorProperties.WrapsAround`,
  exact conditions `FirstWrapIff` and, for every block, `RoundTripIff` with
  `BodiesRepeatIff`).
- Present but empty metadata is lost by a batch reveal script
  (`BatchReveal.BatchRoundTripIff`), and a mint of more than 65535 bytes is cut
  (`WalletScripts.MintRoundTripIff`).
- With the compiled interval of one block, unlock heights are exact only for
  names of twelve letters and more (`DuneSchedule.CompiledIff`; for any number of
  blocks between halvings `DuneSchedule.BorderIff`). With more than twelve blocks
  that are no multiple of twelve, the program runs out of name lengths and stops
  (`DuneSchedule.LengthsLastIff`).
- Height and offset of a koinu do not always read back. The data file
  `starting_koinu.json` has 145006 strictly increasing entries, one for each
  early block and none for the total; 46046 of its steps are longer than the
  reward in `subsidies.json` and 48829 are shorter. `EpochProperties.StepTooLong`
  and `EpochProperties.StepTooShort` are one of each, `ReadsBackIff` and
  `DecimalKeptIff` the exact conditions, `StartsArePaidIff` and `ContiguousIff`
  say what a table would have to be.
- A gap in the list of heights strands every later block in the inbox
  (`DeliveryProperties.ForwardsAllIff`).

## Model

| member | source | states |
|---|---|---|
| `ChainSegments.ChainSegment.TryAppendBlock` | components/dogecoin/src/block_pool/chain_segment.rs:185-232 | A segment offered a header grows, splits off a new segment and stays as it was, or refuses, exactly as `Append` says of its contents. |
| `ChainSegments.ChainSegment.KeepBlocksFromOldestToBlockIdentifier` | components/dogecoin/src/block_pool/chain_segment.rs:127-144 | Drops blocks from the tip until the given one is on top; empties the segment when it is absent, and says whether it was found. |
| `ChainSegments.ChainSegment.PruneConfirmedBlocks` | components/dogecoin/src/block_pool/chain_segment.rs:102-117 | Keeps the blocks at or above the cut-off in order and hands back the others in order. |
| `ChainSegments.ChainSegment.TryIdentifyDivergence` | components/dogecoin/src/block_pool/chain_segment.rs:146-183 | The nested loops compute `Diverge`: what to remove from the other segment and what to add from this one, or failure when nothing is shared. |
| `SegmentProperties.AppendMeaning` | components/dogecoin/src/block_pool/chain_segment.rs:62-232 | For linked chains: a header is taken exactly when the chain holds its parent and not itself; it extends the tip exactly when the parent is the tip, and otherwise forks right above the parent; the result is linked. |
| `SegmentProperties.PruneMeaning` | components/dogecoin/src/block_pool/chain_segment.rs:102-117 | Pruning a linked chain at a height cuts it in two at that height: a linked newer part and the blocks below. |
| `SegmentProperties.DivergenceMeaning` | components/dogecoin/src/block_pool/chain_segment.rs:146-183 | For two linked chains that share a block, the search stops at the highest shared block; above it nothing is shared, below it everything is, and the lists are the tops, newest first and oldest first. |
| `SegmentProperties.DivergenceLists` | components/dogecoin/src/block_pool/chain_segment.rs:146-183 | For chains of equal depth the two lists are exactly the two set differences, hence disjoint. |
| `BlockPools.BlockPool.CanonicalChainTip` | components/dogecoin/src/block_pool/mod.rs:43-49 | Gives the newest block of the canonical fork, or none when it is empty. |
| `BlockPools.BlockPool.CanProcessHeader` | components/dogecoin/src/block_pool/mod.rs:51-58 | Accepts a header when nothing is stored yet or its parent is stored. |
| `BlockPools.BlockPool.PlaceHeader` | components/dogecoin/src/block_pool/mod.rs:98-133 | Offers the header to the forks in key order; the first that takes it grows in place, or its new fork is put under the number of live forks. |
| `BlockPools.BlockPool.AdoptOrphans` | components/dogecoin/src/block_pool/mod.rs:135-171 | Passes over the waiting headers repeat while one was applied; the fork and the applied set end as `Adopt` says, and the loop terminates because the applied set grows. |
| `BlockPools.BlockPool.SelectCanonicalFork` | components/dogecoin/src/block_pool/mod.rs:173-189 | Chooses a longest fork, and the one with the greatest key among several. |
| `BlockPools.BlockPool.GenerateBlockChainEvent` | components/dogecoin/src/block_pool/mod.rs:308-425 | Builds the plain or the reorganisation event from the divergence of two forks and the stored headers, or fails as the code does. |
| `BlockPools.BlockPool.CollectAndPruneConfirmedBlocks` | components/dogecoin/src/block_pool/mod.rs:212-306 | Forks, waiting headers, stored headers and the event's confirmed list become those of `Prune`. |
| `BlockPools.BlockPool.ProcessHeader` | components/dogecoin/src/block_pool/mod.rs:60-210 | One header turns the whole pool into `Process` of its former contents, and the returned event is that step's event. |
| `PoolMeaning.KnownIgnored` | components/dogecoin/src/block_pool/mod.rs:67-82 | A header that is stored already changes nothing but its own entry and has no event. |
| `PoolMeaning.UnplacedWaits` | components/dogecoin/src/block_pool/mod.rs:98-133 | Over every settled pool: a new header whose parent is on no fork is put in the inbox, and nothing else changes. |
| `PoolMeaning.PlacedMeaning` | components/dogecoin/src/block_pool/mod.rs:98-124 | Over every settled pool: of the forks that hold the parent the one with the least key takes a new header, on top when the parent is its tip, and else as a new fork of the header and everything from the parent down, under the number of forks. |
| `PoolMeaning.AdoptMeaning` | components/dogecoin/src/block_pool/mod.rs:135-171 | Whatever waits: at the end of adoption a stored waiting header has been applied if and only if it was not on the fork before, and now it is or its parent is on the fork strictly below the tip. |
| `PoolMeaning.ForkAdopts` | components/dogecoin/src/block_pool/mod.rs:135-171 | The fork that took a header only grows, by waiting blocks, and of blocks waiting for one parent takes the one with the greatest hash. |
| `PoolMeaning.InboxLeavesIff` | components/dogecoin/src/block_pool/mod.rs:135-171 | After a placement and before pruning, a block has left the inbox if and only if it is on the fork that took the header, or its parent is on it strictly below the tip. |
| `PoolMeaning.PruneExactly` | components/dogecoin/src/block_pool/mod.rs:212-306 | Pruning at a height keeps of forks and inbox exactly what is at or above it, in order, and of the store everything but the confirmed blocks and what forks and inbox lost. |
| `PoolMeaning.WaitsApartFromStart` | components/dogecoin/src/block_pool/mod.rs:60-210 | In every run from a new pool no block of a fork is waiting in the inbox. |
| `PoolInvariants.AdoptComplete` | components/dogecoin/src/block_pool/mod.rs:144-165 | When the adoption loop ends, every stored waiting header was applied or is refused by the fork as it now is. |
| `PoolRuns.LookupSucceeds` | components/dogecoin/src/block_pool/mod.rs:314-412 | Looking up the headers of blocks that are all stored succeeds and gives headers with those identifiers; forks hold only such blocks, so no event fails on a lookup. |
| `PoolRuns.EventMeaning` | components/dogecoin/src/block_pool/mod.rs:308-425 | For two forks with one oldest block, the event exists and describes the change: it removes the top of the former fork and adds the top of the selected one above their common part. |
| `PoolRuns.PruneMeaning` | components/dogecoin/src/block_pool/mod.rs:212-306 | Pruning keeps the newest six canonical blocks and the pool's invariant; what is confirmed is everything below them on the stored chain, lies below the new oldest height and leaves the store. |
| `PoolRuns.DivergesIff` | components/dogecoin/src/block_pool/mod.rs:197-205 | A step ends in the reset to the former fork exactly when the fork it selects does not stand on the same oldest block; then the former canonical fork is restored, no event is given, and everything else stays as it was placed. |
| `PoolRuns.StepMeaning` | components/dogecoin/src/block_pool/mod.rs:60-210 | One step in full: the canonical fork grows to some chain, the event describes that growth, and what stays is its newest six blocks with the invariant. |
| `PoolRuns.StepInvariant` | components/dogecoin/src/block_pool/mod.rs:60-210 | The invariant (linked forks, one common oldest height, every block stored, a live longest canonical fork) holds after every step that does not diverge, from the empty pool on. |
| `PoolRuns.FollowStep` | components/dogecoin/src/block_pool/mod.rs:60-210 | One header keeps a follower's chain in step: it can carry out the event, and its chain again starts with the canonical fork. |
| `PoolRuns.Replay` | components/dogecoin/src/block_pool/mod.rs:60-210 | Over every run a follower can carry out every event, and as long as no step diverged its chain is linked and starts with exactly the canonical fork. |
| `PoolRuns.ReplayFromStart` | components/dogecoin/src/pipeline/mod.rs:132-178 | From a new pool and an empty chain, the events alone rebuild the canonical chain, through reorganisations, adoption and pruning. |
| `PoolGuarantees.BoundedReorgs` | components/dogecoin/src/block_pool/mod.rs:212-306 | Over every run no event removes more than five blocks, nor one at or below the oldest height at the start. |
| `PoolGuarantees.Finality` | components/dogecoin/src/block_pool/mod.rs:212-306 | Over every run a header reported as confirmed is never in a later rollback list. |
| `PoolGuarantees.FinalPairs` | components/dogecoin/src/block_pool/mod.rs:212-306 | Finality for any two events of a run: nothing confirmed by the earlier is rolled back by the later. |
| `PoolGuarantees.Conservation` | components/dogecoin/src/block_pool/mod.rs:60-306 | With the caller's gate, over every run without divergence, the follower's chain is the canonical fork on top of all confirmed blocks in order of report: none lost, none reported twice. |
| `PoolGuarantees.ConservationFromStart` | components/dogecoin/src/pipeline/mod.rs:126-134 | From a new pool, confirmed blocks and canonical fork together are one linked chain, which is the follower's. |
| `PoolConsumer.BlockStore.TakeAll` | components/dogecoin/src/pipeline/mod.rs:136-161 | Takes the blocks of an event out one after another and stops at the first that is not kept. |
| `PoolConsumer.AdvanceBlockPool` | components/dogecoin/src/pipeline/mod.rs:100-228 | The loop over a growing list of blocks turns pool, store, commands and result into those of `AdvanceKept`, stopping where a kept block is missing; and every indexer whose chain is the canonical fork on top of what was confirmed can obey the returned commands, after which, unless a block was given up or missing, its chain is that of the new pool. |
| `PoolConsumer.CommandsFollow` | components/dogecoin/src/pipeline/mod.rs:132-178 | Obeying the commands (take the rollback blocks off the top, put the blocks to apply on) does to a chain exactly what the events say. |
| `PoolConsumer.KeptSame` | components/dogecoin/src/pipeline/mod.rs:120-170 | Up to the missing block where the program stops, the blocks it keeps make no difference to what it sends. |
| `PoolConsumer.AdvanceAgrees` | components/dogecoin/src/pipeline/mod.rs:100-228 | Whatever is fetched, every event of an advance can be followed; unless it ends with a block without an event, pool, follower and confirmed chain agree again. |
| `PoolConsumer.IndexerInStep` | components/dogecoin/src/pipeline/mod.rs:314-329 | From a new pool, whatever blocks arrive and whichever downloads fail: every command can be obeyed, and until a block has no event the indexer's chain is linked and is the canonical fork on top of everything confirmed. |
| `SteadyPools.NoEventIff` | components/dogecoin/src/block_pool/mod.rs:60-210 | Over every settled pool a header has no event exactly when it is stored, no fork takes it, the selected fork stands on another oldest block, or the canonical blocks are unchanged. |
| `SteadyPools.SilentIff` | components/dogecoin/src/block_pool/mod.rs:60-210 | Over every pool the caller can hold, the same in terms a caller can check beforehand: the height and key of the header's fork against the canonical tip and key, and the oldest blocks. |
| `SteadyPools.SteadyStep` | components/dogecoin/src/block_pool/mod.rs:60-306 | A gated header with an event keeps the pool steady: nothing waits, the canonical fork is the one selection would choose, the store reaches down to the oldest height and no further along the chain. |
| `SteadyPools.SpokenTip` | components/dogecoin/src/block_pool/mod.rs:98-210 | After a step with an event the header is stored, and is the canonical tip unless it displaced the canonical fork. |
| `GivingUp.GivesUpIff` | components/dogecoin/src/pipeline/mod.rs:126-226 | For every such pool, block and number of downloads that work: the caller gives up exactly when the lowest block it fetches has no event, or displaces the canonical fork and the block on top of it has none; the download fails exactly when no block with a stored parent is within reach. |
| `GivingUp.RunGivesUpIff` | components/dogecoin/src/pipeline/mod.rs:314-329 | From a new pool, after any arrivals that succeeded, the next arrival is given up exactly when that condition holds of the pool reached. |
| `GivingUp.ArrivalIndexed` | components/dogecoin/src/pipeline/mod.rs:100-228 | An indexer in step can obey every command of an arrival, however many blocks are fetched for it, and when the caller is done the arriving block is stored and is the newest it has indexed, unless the block displaced the canonical fork. |
| `GivingUp.BranchGivenUpIff` | components/dogecoin/src/pipeline/mod.rs:197-226 | After one to six linked arrivals, a branch of any length whose top arrives is given up exactly when it leaves the line two or more blocks below the tip. |
| `KeptStops.StopsAtIff` | components/dogecoin/src/pipeline/mod.rs:120-170 | For every pool and store of blocks the program can hold, and any number of downloads that work: an arriving block stops the program exactly when the fork selected for the lowest block fetched holds a block that was applied before and is not canonical now, or that block displaces the canonical fork and the fork selected for the next one does. |
| `KeptStops.RunStopsIff` | components/dogecoin/src/pipeline/mod.rs:314-329 | From a new pool, after any arrivals that succeeded, the next arrival stops the program exactly when that condition holds of the pool reached and the blocks applied so far. |
| `KeptBlocks.StopsIff` | components/dogecoin/src/pipeline/mod.rs:120-170 | The same seen from a whole run: the program stops exactly when the events of the pool apply some block twice; up to there, or without that, it sends exactly the pool's events. |
| `KeptBlocks.KeptInStep` | components/dogecoin/src/pipeline/mod.rs:100-329 | The indexer can obey every command the program really sends, and unless it gives up or stops the indexer's chain is the canonical fork on top of everything confirmed. |
| `KeptWitness.FourArrivalsStop` | components/dogecoin/src/pipeline/mod.rs:149-161 | Two linked blocks, a sibling of the upper one and a third block of the first branch, each with a hash of its own: the fourth arrival brings back a block that was applied before, and the program stops. |
| `PoolWitness.RunDiverges` | components/dogecoin/src/block_pool/mod.rs:197-205 | Thirteen headers from the new pool, each block with a hash of its own, of which the last diverges: the other fork is as long and has the greater key, but the former one stays canonical and no event is given. |
| `PoolLimits.TipFallsIff` | components/dogecoin/src/block_pool/mod.rs:98-189 | Over every settled pool and step without divergence, the canonical tip gets lower exactly when the header starts a new fork, the number of forks is the canonical key, and no fork left is as long as the former canonical one. |
| `PoolWitness.RunOverwrites` | components/dogecoin/src/block_pool/mod.rs:98-133 | Nine headers from the new pool, each block with a hash of its own, lead to one fork of six blocks under key 1; a sibling inside it takes that key, four blocks are rolled back for one applied, and the tip falls from height 17 to 14 without a divergence. |
| `Varints.EncodeToVec` | components/doginals/src/varint.rs:3-9 | The loop appends the little-endian groups of seven bits of the value, marked on all but the last. |
| `Varints.DecodeBuffer` | components/doginals/src/varint.rs:11-33 | The loop computes `Decode`: value and length, or too long, overflow, unterminated. |
| `Varints.DecodeEncode` | components/doginals/src/varint.rs:3-33 | Decoding an encoding followed by anything gives the value and exactly the length of its encoding. |
| `Varints.DecodeSound` | components/doginals/src/varint.rs:11-33 | What decodes is the full value of at most nineteen bytes and below 2^128: no bit is lost. |
| `Varints.DecodeIff` | components/doginals/src/varint.rs:11-33 | On every byte string: a number is there exactly when a run of at most nineteen bytes ends and its value fits 128 bits; it is unterminated, overflows or is too long exactly as the values of its first bytes say. |
| `Varints.EncodeShort` | components/doginals/src/varint.rs:3-33 | Every 128-bit value takes at most nineteen bytes, and the nineteenth passes the decoder's overflow test. |
| `Varints.CanonicalIff` | components/doginals/src/varint.rs:3-33 | A run of bytes is the encoding of its value exactly when it has no idle zero byte at its end. |
| `Varints.ReadIntegers` | components/doginals/src/dunestone.rs:237-248 | The loop reads a payload as a list of varints, or gives the first error. |
| `Varints.IntegersEncodeAll` | components/doginals/src/dunestone.rs:237-248 | The integers of concatenated encodings are the original list. |
| `Varints.IntegersIff` | components/doginals/src/dunestone.rs:237-248 | A payload is a list of integers if and only if it is made of runs with these values, canonical or not. |
| `DuneIds.NextUndoesDelta` | components/doginals/src/dune_id.rs:32-53 | A delta exists exactly between ordered ids, and stepping by it leads back, except to ids of block zero that the constructor rejects. |
| `DuneIds.NextIff` | components/doginals/src/dune_id.rs:42-53 | A step of any size arrives exactly where both parts fit their fields and a dune can be. |
| `DunestoneCodec.SortSorts` | components/doginals/src/dunestone.rs:172-173 | Sorting the edicts gives a permutation ordered by id. |
| `DunestoneCodec.SortStable` | components/doginals/src/dunestone.rs:172-173 | Edicts with one id keep their order. |
| `DunestoneCodec.EncipherEdicts` | components/doginals/src/dunestone.rs:175-183 | Over sorted edicts every delta exists, and the loop appends the encodings of the delta-coded body. |
| `DunestoneCodec.EncipherPayload` | components/doginals/src/dunestone.rs:131-170 | The payload grown field by field is the encoding of the whole message. |
| `DunestoneMeaning.PayloadInOrder` | components/doginals/src/dunestone.rs:134-170 | The fields are enciphered as flags, name, divisibility, spacers, symbol, premine, amount, cap, heights, offsets, mint and pointer. |
| `DunestoneCodec.Encipher` | components/doginals/src/dunestone.rs:186-195 | The script is the printed form of two opcodes and the pushed payload. |
| `DunestoneCodec.FromIntegers` | components/doginals/src/dunestone/message.rs:10-55 | The loop reads fields up to the body tag and edicts after it, with the first flaw it meets. |
| `DunestoneCodec.ReadPayload` | components/doginals/src/dunestone.rs:214-231 | Collects the pushes after the two opcodes, or tells an opcode from a broken script. |
| `DunestoneCodec.FindPayload` | components/doginals/src/dunestone.rs:198-235 | The payload is that of the first output that starts with the two opcodes. |
| `DunestoneCodec.InterpretMessage` | components/doginals/src/dunestone.rs:50-127 | Taking flags, tags and checks in order gives the dunestone or the cenotaph of `Interpret`. |
| `DunestoneMeaning.InterpretMeaning` | components/doginals/src/dunestone.rs:44-127 | For every message: it is a dunestone if and only if it has no flaw, premine and mints fit 128 bits, no flag but the three known ones is set (terms and turbo only with an etching), and the numbers under every even tag are as many as it takes and all accepted; its fields are the first numbers of their tags within their limits. Otherwise the first of these flaws is reported, with the mint and the name kept. |
| `DunestoneMeaning.FieldsMeaning` | components/doginals/src/dunestone/message.rs:10-55 | For every list of integers: pairs of tag and value up to the tag 0, each tag with all its values in order, then edicts; a tag without a value is a truncated field. |
| `DunestoneMeaning.EdictsMeaning` | components/doginals/src/dunestone/message.rs:18-40 | For every list of integers: edicts are read four numbers at a time, each id by a step from the one before, up to the first that is incomplete, has no id or names an output beyond the end, and the flaw says which. |
| `DunestoneCodec.DecipherTransaction` | components/doginals/src/dunestone.rs:25-48 | Deciphering the outputs of a transaction computes `Decipher`. |
| `DunestoneMeaning.MarkedIff` | components/doginals/src/dunestone.rs:200-212 | An output counts exactly when its first two bytes are 0x6a and 0x5d. |
| `DunestoneMeaning.DecipherMeaning` | components/doginals/src/dunestone.rs:25-48 | Without a marked output there is nothing; otherwise the first marked one decides: its integers are interpreted, or an opcode among its pushes, a broken script or a bad varint, in this order, makes a cenotaph. |
| `DunestoneMeaning.StoneIff` | components/doginals/src/dunestone.rs:25-127 | A transaction whose first marked output carries integers has a dunestone if and only if all the rules above are met, and else the cenotaph with the first flaw, its mint and its name. |
| `DunestoneProperties.TakeMeaning` | components/doginals/src/dunestone/tag.rs:28-50 | Taking a tag gives its first accepted value and leaves every other tag as it was. |
| `DunestoneProperties.ReadBody` | components/doginals/src/dunestone/message.rs:18-40 | Reading a delta-coded body gives the edicts back without a flaw exactly when each has an id that exists and an output in range. |
| `DunestoneProperties.MessageRead` | components/doginals/src/dunestone/message.rs:10-55 | Reading an enciphered message gives every field its values, and the edicts in stable order exactly when all can be carried. |
| `DunestoneProperties.InterpretIff` | components/doginals/src/dunestone.rs:44-127 | Interpreting an enciphered message gives the dunestone back exactly when the transaction can carry it. |
| `DunestoneProperties.RoundTripIff` | components/doginals/src/dunestone.rs:25-196 | Codec theorem, down to bytes: enciphered into the first marked output, a dunestone is deciphered to itself with its edicts in stable order, if and only if divisibility, spacers, supply, ids, outputs and output index are within the limits. |
| `DeliveryProperties.InitInvariant` | components/dogecoin/src/pipeline/blk.rs:77-84 | With the queue loaded and the stop markers behind it, every part of the delivery invariant holds. |
| `DeliveryProperties.KeepsConserves` | components/dogecoin/src/pipeline/blk.rs:106-200 | No step of any thread loses or invents a height: queue, readers, channel and arrivals together stay the listed heights. |
| `DeliveryProperties.KeepsPillsLast` | components/dogecoin/src/pipeline/blk.rs:107-113 | Stop markers stay last, and without an abort a reader only finishes when no height is queued. |
| `DeliveryProperties.KeepsArrivals` | components/dogecoin/src/pipeline/blk.rs:158-200 | What has arrived is in the inbox or was forwarded, and a height listed once is not in both. |
| `DeliveryProperties.KeepsCounts` | components/dogecoin/src/pipeline/blk.rs:171-185 | The received counter reaches the total only when every height has arrived, also when it is set because all readers are gone. |
| `DeliveryProperties.KeepsInOrder` | components/dogecoin/src/pipeline/blk.rs:187-232 | What was sent and what is in the current batch stay exactly what one thread would have sent up to the cursor. |
| `DeliveryProperties.RunKeepsInvariant` | components/dogecoin/src/pipeline/blk.rs:94-242 | Every state of every interleaving of eight readers, the dispatcher and an abort satisfies the invariant. |
| `DeliveryProgress.LoadingBlocks` | components/dogecoin/src/pipeline/blk.rs:75-84 | For every list of heights, filling the work queue before any reader runs never ends: heights and stop markers are more than the queue holds, and once it is full no item can be added. |
| `DeliveryProgress.OneStepCloser` | components/dogecoin/src/pipeline/blk.rs:94-242 | From a loaded queue, in every reachable state without an abort that has not stopped, some thread can take a step that brings the dispatcher closer to stopping. |
| `DeliveryProgress.CanAlwaysStop` | components/dogecoin/src/pipeline/blk.rs:94-242 | From a loaded queue, every run without an abort can be continued to one that stops without an abort: after loading there is no deadlock. |
| `DeliveryProgress.StepLightens` | components/dogecoin/src/pipeline/blk.rs:94-242 | Every step of a reader, every receipt and every block passed on lowers what is left to do; every other step leaves queue, channel, inbox and cursor as they were. |
| `DeliveryProgress.WorkBounded` | components/dogecoin/src/pipeline/blk.rs:94-242 | So every run, with or without an abort, makes at most six such steps for each height and stop marker: only idle turns can delay the end. |
| `DeliveryProperties.EachHeightInOnePlace` | components/dogecoin/src/pipeline/blk.rs:94-242 | With distinct heights, each is at every moment in exactly one of queue, reader, channel, inbox and forwarded. |
| `DeliveryProperties.SendsInOrder` | components/dogecoin/src/pipeline/blk.rs:187-232 | At every moment outside a batch, aborted or not, the batches sent so far are the sequential output up to the cursor. |
| `DeliveryProperties.BlocksDelivered` | components/dogecoin/src/pipeline/blk.rs:115-232 | At every moment outside a batch, aborted or not, the blocks sent are those read at the readable heights from the start up to the cursor, in ascending order and each once; the start is the later of the sequencing start and the first height listed. |
| `DeliveryProperties.SequentialAscends` | components/dogecoin/src/pipeline/blk.rs:187-232 | The sequential output is strictly ascending by height. |
| `DeliveryProperties.CompactedAscends` | components/dogecoin/src/pipeline/blk.rs:187-232 | The compact blocks sent are strictly ascending, hence without duplicates, and are exactly the readable, compressible blocks from the start up to the cursor. |
| `DeliveryProperties.StopsAtFirstGap` | components/dogecoin/src/pipeline/blk.rs:158-236 | On exit without abort the cursor is at the first height from the start that was not listed, and every listed height outside the forwarded range is still in the inbox. |
| `DeliveryProperties.ForwardsAllIff` | components/dogecoin/src/pipeline/blk.rs:158-236 | On exit without abort every listed height from the start on was forwarded if and only if the list has no gap after the start. |
| `DeliveryProperties.ContiguousDelivery` | components/dogecoin/src/pipeline/blk.rs:158-236 | For a list of consecutive heights the cursor ends just past the last one (or at the start, when that is higher), and the blocks sent are all readable ones from the start to there, in order and each once. |
| `BlockCursors.FromStandardizedBlock` | components/dogecoin/src/types/cursor.rs:278-325 | The loops write the count, the table of lengths and the bodies of `Encode`, with every truncating cast written out. |
| `BlockCursors.GetTransactionAtPos` | components/dogecoin/src/types/cursor.rs:112-149 | Moving a cursor over inputs and outputs reads what the position-free reader reads, or stops on missing bytes. |
| `BlockCursors.TransactionIterator.Next` | components/dogecoin/src/types/cursor.rs:347-368 | Each call gives the first of the remaining transactions and leaves the others. |
| `BlockCursors.FindAndSerializeTransaction` | components/dogecoin/src/types/cursor.rs:151-184 | The search loop computes `Find`: it compares identifiers only and parses where it stops. |
| `BlockCursorProperties.FormatBack` | components/dogecoin/src/types/cursor.rs:70-110 | In every block the table gives for a transaction the counts modulo 2^16 of the entry its wrapped position points to. |
| `BlockCursorProperties.ReadTxBack` | components/dogecoin/src/types/cursor.rs:112-149 | Reading a written body followed by anything gives the transaction back, heights and output indices reduced to their fields. |
| `BlockCursorMeaning.ReadTxMeaning` | components/dogecoin/src/types/cursor.rs:112-149 | From any bytes: identifier, inputs and outputs are read at fixed distances, and reading fails exactly when the bytes run out; where no identifier fits it is all zeros. |
| `BlockCursorMeaning.ReadAllIff` | components/dogecoin/src/types/cursor.rs:70-149 | From any bytes: iterating gives a list if and only if each transaction of the table can be read behind the bodies of those before it, in order. |
| `BlockCursorProperties.BodiesRepeatIff` | components/dogecoin/src/types/cursor.rs:70-110 | For every block, the bodies stand where iteration starts if and only if they are a prefix of the rest of the table, from the entry the wrapped number of transactions points to, and themselves. |
| `BlockCursorProperties.RoundTripIff` | components/dogecoin/src/types/cursor.rs:278-368 | For every block, iterating over the bytes gives the transactions back, the coinbase without inputs, if and only if there are fewer than 65536, all counts and output indices fit 16 bits and all heights 32, the counts agree with those at the wrapped table positions, and the bodies repeat that rest of the table. |
| `BlockCursorProperties.SmallRoundTripIff` | components/dogecoin/src/types/cursor.rs:278-368 | With at most 16383 transactions this is exactly that all counts, indices and heights fit. |
| `BlockCursorProperties.FirstWrapIff` | components/dogecoin/src/types/cursor.rs:70-110 | With exactly 16384 transactions the table positions wrap to zero and the block comes back if and only if, besides, the bodies are a prefix of table and bodies. |
| `BlockCursorProperties.FindsFirst` | components/dogecoin/src/types/cursor.rs:151-184 | For every non-empty block that reads back but for narrowed fields, looking up an identifier gives the first transaction of the iteration that has it, or none. |
| `BlockCursorProperties.FirstWithMeans` | components/dogecoin/src/types/cursor.rs:151-184 | What first means: the match with the smallest index, and none exactly when no transaction matches. |
| `BlockCursorProperties.WrapsAround` | components/dogecoin/src/types/cursor.rs:70-110 | So no block of 16384 transactions comes back unless its first identifier begins with zero. |
| `BlkReader.ByteCursor.Size` | components/dogecoin/src/blk_reader.rs:682-690 | Reads a count in one of its four widths and moves past it. |
| `BlkReader.ByteCursor.RawTransaction` | components/dogecoin/src/blk_reader.rs:571-678 | Reads a transaction, leaves out coinbase inputs, keeps the bytes its identifier is hashed from, and moves to its end. |
| `BlkWriter.ReadIffWritten` | components/dogecoin/src/blk_reader.rs:571-618 | On every byte string and position: a transaction is read, field by field, if and only if it stands there written out, with counts and lengths in any width that holds them; the bytes to be hashed are exactly those. |
| `BlkWriter.NotCoinbaseMeaning` | components/dogecoin/src/blk_reader.rs:593-633 | The inputs kept are all but those with the last output index and an identifier of zeros, in order. |
| `BlkReader.ByteCursor.PassTransaction` | components/dogecoin/src/blk_reader.rs:534-554 | Seeks over a transaction as `SkipTransaction` says, with lengths reinterpreted as signed. |
| `BlkReader.ByteCursor.PassAuxPow` | components/dogecoin/src/blk_reader.rs:506-531 | Seeks over a merged-mining proof as `SkipAuxPow` says, with 64-bit products. |
| `BlkReaderProperties.InputsIff` | components/dogecoin/src/blk_reader.rs:583-604 | Reading a list of inputs succeeds exactly when skipping it moves forward and stays inside the data; both end at one position. |
| `BlkReaderProperties.OutputsIff` | components/dogecoin/src/blk_reader.rs:609-618 | The same for a list of outputs. |
| `BlkReaderProperties.ReadIffSkip` | components/dogecoin/src/blk_reader.rs:534-678 | On every byte string and position: reading a transaction succeeds if and only if skipping it ends inside the data and meets no length of 2^63 or more, and then both end at the same position. |
| `BlkReaderProperties.StepsBackwards` | components/dogecoin/src/blk_reader.rs:534-604 | A concrete transaction with a length of 2^64 - 1 that the skipper walks over by stepping back and the reader rejects. |
| `BlkReaderProperties.SkipAuxPowIff` | components/dogecoin/src/blk_reader.rs:506-531 | On every byte string and position: all fields of a merged-mining proof are present if and only if skipping it ends inside the data, never turns back and no product wraps; then it ends exactly at their end. |
| `Inscriptions.Append` | components/doginals/src/tag.rs:34-55 | Appends a field as tag and value, metadata in pieces of at most 520 bytes each under its own tag. |
| `Inscriptions.AppendArray` | components/doginals/src/tag.rs:57-68 | Appends every value of a list under the tag. |
| `Inscriptions.AppendRevealScript` | components/doginals/src/inscription.rs:116-139 | The builder grows by the inscription's reveal script: marker, fields in the fixed order, body in pieces, end. |
| `Inscriptions.AppendBatchRevealScript` | components/doginals/src/inscription.rs:146-155 | The builder grows by the reveal scripts of all inscriptions in order. |
| `Inscriptions.MakePointerValue` | components/doginals/src/inscription.rs:106-114 | Dropping the zero bytes at the end of the eight bytes leaves the shortest little-endian form. |
| `Inscriptions.PointerRoundTrip` | components/doginals/src/inscription.rs:251-270 | Such a value reads back as the same number, has at most eight bytes and does not end in zero. |
| `Inscriptions.PointerOfIff` | components/doginals/src/inscription.rs:251-270 | Any pointer value reads as the number of its bytes, low byte first, if and only if that number fits 64 bits, however many bytes there are. |
| `Inscriptions.FieldsInOrder` | components/doginals/src/inscription.rs:122-132 | Fields are written as type, encoding, protocol, parents, delegate, pointer, metadata, dune. |
| `Envelopes.ReadPushes` | components/doginals/src/envelope.rs:184-272 | Collects the pushes of an envelope, small-number opcodes as their bytes, up to its end, to something that does not belong, or to the end of the script. |
| `Envelopes.ReadEnvelope` | components/doginals/src/envelope.rs:164-183 | Recognises the opening of an envelope after an empty push, and stuttering. |
| `Envelopes.ReadTapscript` | components/doginals/src/envelope.rs:134-153 | The loop over a script gives the envelopes of `FromTapscript`, numbered in order, or the script's error. |
| `TapscriptMeaning.CollectMeaning` | components/doginals/src/envelope.rs:184-272 | With any number of values at the front of a script: they are the payload if the end of the envelope comes next, marked if any was a small number; any other opcode ends the attempt behind it, and the end of a script that breaks off is an error. |
| `TapscriptMeaning.StuttersIff` | components/doginals/src/envelope.rs:134-183 | An envelope behind a row of empty pushes has stuttered if and only if there is more than one of them or the attempt before it stuttered. |
| `TapscriptMeaning.AttemptFails` | components/doginals/src/envelope.rs:134-183 | Where the search goes on after each kind of failed attempt, and whether the next one counts as stuttering. |
| `Envelopes.FindBody` | components/doginals/src/envelope.rs:35-39 | Finds the first even position with an empty push. |
| `Envelopes.CollectFields` | components/doginals/src/envelope.rs:41-50 | Collects pairs into lists of values by key, and notices a key without a value. |
| `Envelopes.ParseEnvelope` | components/doginals/src/envelope.rs:52-93 | Parsing an envelope computes `Parse`. |
| `Envelopes.FindPayload` | components/doginals/src/envelope.rs:293-310 | Collects the data pushes of a script and gives the payload after the first protocol marker. |
| `Envelopes.ReadTransactions` | components/doginals/src/envelope.rs:283-322 | Gives the envelopes found in the first input script of each transaction. |
| `InputScripts.DataPushesMeaning` | components/doginals/src/envelope.rs:293-300 | The pushes collected are the data of all pushes of a script in order, opcodes left out. |
| `InputScripts.PayloadMeaning` | components/doginals/src/envelope.rs:302-343 | Every script: without the marker it has no payload; behind the first marker the pushes are the payload as they are, unless they have the wallet's shape, which becomes a content type and a body. |
| `InputScripts.InscriptionFound` | components/doginals/src/envelope.rs:283-343 | An inscription pushed behind the first marker of a transaction's first script, with any opcodes between, is the one found in that transaction, for every inscription. |
| `EnvelopeProperties.TakeMeans` | components/doginals/src/tag.rs:70-94 | Taking a tag gives its first value (metadata: all values joined), leaves its later values, and leaves every other tag as it was. |
| `EnvelopeProperties.TakeArrayMeans` | components/doginals/src/tag.rs:96-103 | Taking a list gives all values of the tag and removes it. |
| `EnvelopeProperties.ParseMeans` | components/doginals/src/envelope.rs:34-93 | For every payload: each field, the body's place and the three flags said in terms of the pairs themselves, without the field map. |
| `EnvelopeProperties.ParsePrinted` | components/doginals/src/inscription.rs:122-138 | Parsing the pushes of an inscription gives it back, up to recomputed flags and empty metadata; repeated means several parents or metadata of more than one piece. |
| `BatchReveal.BatchRoundTrip` | components/doginals/src/inscription.rs:116-162 | Reading the bytes of a batch reveal script gives one envelope for each inscription, numbered from zero, without small numbers or stutter, each parsing to its inscription. |
| `BatchReveal.BatchRoundTripIff` | components/doginals/src/inscription.rs:116-162 | Every inscription of a batch comes back with all its content if and only if none has metadata that is present but empty. |
| `WalletScripts.EncodePush` | components/cli/src/cli/mod.rs:1989-2008 | Appends length and data; up to 65535 bytes this is a standard push of the predicted size, beyond that the length is cut to 16 bits. |
| `WalletScripts.BuildSegments` | components/cli/src/cli/mod.rs:1979-1987 | Builds marker, piece count, content type, chunk count and payload. |
| `WalletScripts.BuildScriptSig` | components/cli/src/cli/mod.rs:2031-2042 | Concatenates the segments and the pushes of signature and key. |
| `WalletScripts.ReadCount` | components/cli/src/cli/mod.rs:2022-2029 | Every 16-bit count reads back as the one instruction that says it. |
| `WalletScripts.ReadPushed` | components/cli/src/cli/mod.rs:1989-2008 | What any push reads as: the data up to 65535 bytes, else a part of it with the rest read as script. |
| `WalletScripts.MintPayload` | components/doginals/src/envelope.rs:325-343 | The payload found in a mint's script has what the push of the payload reads as for its body, and is the rewritten single piece when it fits. |
| `WalletScripts.MintHolds` | components/cli/src/cli/mod.rs:1979-2042 | A mint's script whose parts fit their pushes holds exactly marker, piece count, content type, empty push, payload, signature and key, in this order. |
| `WalletScripts.MintRoundTripIff` | components/cli/src/cli/mod.rs:1979-2042 | The script built for a mint parses to exactly one envelope; it is the plain text inscription of the payload if and only if the payload has at most 65535 bytes, for every signature and key. |
| `WalletScripts.EnvelopePerMarked` | components/doginals/src/envelope.rs:283-322 | Over a list of transactions, each one with a marker gives one envelope, numbered by the marked ones before it. |
| `Dunes.FromStr` | components/doginals/src/dune.rs:187-202 | The loop with its three checked operations computes `Parse`, with the first error. |
| `Dunes.Display` | components/doginals/src/dune.rs:158-181 | Digits are produced from the low end and reversed, with the largest number spelled out apart. |
| `Dunes.ParseIff` | components/doginals/src/dune.rs:187-202 | Parsing succeeds exactly on words of the 26 letters whose number fits 128 bits, and gives that number. |
| `Dunes.ParseError` | components/doginals/src/dune.rs:187-202 | Why a word does not parse: the shortest beginning that does not, and whether its last character is wrong or the number leaves 128 bits, room for one more digit being asked for first. |
| `Dunes.LargestName` | components/doginals/src/dune.rs:160-162 | The name written out for the largest number is the one its digits would give. |
| `Dunes.ParsePrint` | components/doginals/src/dune.rs:157-203 | Parsing undoes printing for every 128-bit number. |
| `Dunes.PrintParse` | components/doginals/src/dune.rs:157-203 | Printing undoes parsing for every word that parses, except that the empty word counts as A. |
| `Dunes.StepsTable` | components/doginals/src/dune.rs:31-60 | The table is the sequence 0, 26 times (previous + 1). |
| `Dunes.LengthIff` | components/doginals/src/dune.rs:164-180 | A name has i + 1 letters if and only if its number lies between entries i and i + 1 of the table; no name has more than 28. |
| `Dunes.ReservedIff` | components/doginals/src/dune.rs:132-134 | Reserved numbers are exactly those whose names have at least 27 letters. |
| `DuneSchedule.UnlockIff` | components/doginals/src/dune.rs:77-130 | With twelve whole intervals between halvings, a dune that is not reserved is at or above the minimum at exactly the heights from its unlock height on. |
| `DuneSchedule.OutsideSchedule` | components/doginals/src/dune.rs:66-92 | Before its start (4 halvings on Bitcoin, 12 on testnet, none elsewhere) a network asks for thirteen letters, and from the halving after its start on for nothing. |
| `DuneSchedule.UnlocksEverIff` | components/doginals/src/dune.rs:108-116 | Exactly the reserved dunes never unlock, and names of thirteen letters are free from the start. |
| `DuneSchedule.LengthsLastIff` | components/doginals/src/dune.rs:77-106 | For every number of blocks between halvings: the minimum exists at every height if and only if that number is at most twelve or a multiple of twelve; otherwise the program stops at some height. |
| `DuneSchedule.BorderIff` | components/doginals/src/dune.rs:77-130 | For every number of blocks between halvings: the unlock height is the exact border at all heights if and only if the lengths last and the dune is free from the start or unlocks before the schedule ends. |
| `DuneSchedule.MinimumFalls` | components/doginals/src/dune.rs:77-106 | The minimum never rises with the height. |
| `DuneSchedule.CompiledMinimum` | components/doginals/src/dune.rs:77-130 | As compiled, every dune that is not reserved is at or above the minimum at its unlock height, and the minimum never rises. |
| `DuneSchedule.CompiledIff` | components/doginals/src/dune.rs:77-130 | As compiled, the unlock height is the exact border if and only if the dune is at least entry 11 of the table, that is, its name has twelve letters or more. |
| `SpacedDunes.FromStr` | components/doginals/src/spaced_dune.rs:29-55 | The loop over characters and the final checks compute `Parse`, with the first error; shifts wrap at 32. |
| `SpacedDunes.Display` | components/doginals/src/spaced_dune.rs:59-71 | Letters are written with a bullet after each whose bit is set, except the last. |
| `SpacedDunes.ParsePrint` | components/doginals/src/spaced_dune.rs:26-72 | Parsing a printed name gives the dune with the spacers that lie between its letters. |
| `SpacedDunes.ParsePrintIff` | components/doginals/src/spaced_dune.rs:26-72 | Parsing undoes printing if and only if every spacer lies between two letters. |
| `SpacedDunes.PrintParse` | components/doginals/src/spaced_dune.rs:26-72 | Whatever parses prints back as itself with dots turned into bullets. |
| `SpacedDunes.ParsesIff` | components/doginals/src/spaced_dune.rs:29-55 | A string parses if and only if it is letters with dots or bullets, single ones, each between two letters, whose letters are the name of a dune, which is then the one parsed. |
| `SpacedDunes.ErrorMeaning` | components/doginals/src/spaced_dune.rs:29-55 | For strings of at most 32 letters: which error is reported, and the character that causes it. |
| `Epochs.CumulativePostWonky` | components/doginals/src/epoch.rs:94-112 | The jumps over periods with saturating sums give the block-by-block sum capped at 64 bits, for exactly the heights up to 4294900000. |
| `Epochs.RewardHalves` | components/doginals/src/epoch.rs:78-90 | 500,000 coins up to height 200,000, half with every period from then on, and 10,000 coins from height 600,000 on for ever. |
| `Epochs.FindStart` | components/doginals/src/epoch.rs:57-66 | The start of a block is read from the table or summed after it. |
| `Epochs.FindEpoch` | components/doginals/src/epoch.rs:158-199 | The table search and the forward walk compute `EpochOf`, with sums wrapping at 64 bits. |
| `EpochProperties.SearchMeaning` | components/doginals/src/epoch.rs:177-198 | For every table: the walk answers the first block whose sum in 64 bits passes the target or that pays nothing, or the block past ten million. |
| `EpochProperties.EpochFound` | components/doginals/src/epoch.rs:157-200 | For every strictly increasing table: a koinu between the start of a block and the next is found in that block, up to the search cap and for blocks that end within 64 bits. |
| `EpochProperties.EpochIff` | components/doginals/src/epoch.rs:157-200 | After the early era and up to the cap, the enclosing block is found if and only if its end fits 64 bits. |
| `EpochProperties.EpochCapped` | components/doginals/src/epoch.rs:157-200 | A koinu paid beyond the cap is always taken for one of the block just past the cap. |
| `EpochProperties.EpochUnique` | components/doginals/src/epoch.rs:157-200 | The block found is the only one that encloses the koinu. |
| `EpochProperties.EveryKoinu` | components/doginals/src/epoch.rs:57-66 | Every koinu is enclosed by exactly one block. |
| `EpochProperties.EpochEncloses` | components/doginals/src/epoch.rs:157-200 | For every koinu below a later start up to the cap that fits 64 bits, whatever koinu it is, the block found encloses it. |
| `EpochProperties.ReadsBackIff` | components/doginals/src/koinu.rs:24-67 | Height and offset of a koinu read back as that koinu if and only if the offset is below the reward of the block found. |
| `EpochProperties.PositionLeads` | components/doginals/src/koinu.rs:65-67 | The start of the block found and the position of a koinu in it lead back to the koinu in 64 bits, whatever the table and the koinu. |
| `EpochProperties.FoundReadsBackIff` | components/doginals/src/koinu.rs:24-67 | The same for every koinu below a later start up to the cap, said of the block the search finds, with wrapping differences, sums and heights. |
| `EpochProperties.ReadsBackAfterEra` | components/doginals/src/koinu.rs:24-67 | After the early era up to the cap every koinu reads back. |
| `EpochProperties.ReadsBackBeyondCap` | components/doginals/src/koinu.rs:24-67 | Beyond the cap as well, with the block that really paid it, although the search stops at the cap. |
| `EpochProperties.StepTooLong` | components/doginals/src/koinu.rs:24-67 | With entries 1182 and 1183 of the program's table, the first koinu past the reward of block 1182 does not read back. |
| `EpochProperties.DecimalKeptIff` | components/doginals/src/koinu.rs:237-257 | A decimal is accepted exactly when its offset is below the reward, and comes back from its koinu exactly when the block encloses that koinu. |
| `EpochProperties.StepTooShort` | components/doginals/src/koinu.rs:237-257 | With entries 1448 and 1449 of the program's table, the last decimal of block 1448 is accepted and comes back as another one. |
| `EpochProperties.StartsArePaidIff` | components/doginals/src/epoch.rs:57-66 | Every block starts at what was paid before it, capped at 64 bits, if and only if the table holds the running sums and the total. |
| `EpochProperties.ContiguousIff` | components/doginals/src/epoch.rs:57-66 | Each early block starts where the one before it ends if and only if the table also holds the end of the era and every step is the reward. |
| `EpochProperties.TwoClaims` | components/doginals/src/epoch.rs:57-66 | With one start for each early block and no total, the last early block and the next claim the same koinu. |

## Left out

- PoolRuns.Replay: stops at the first step that diverges, as the caller gives up there; what a pool does after a divergence is not described.
- PoolGuarantees.Conservation: assumes the gate of the pool's caller, that each header's parent is stored (`PoolConsumer.IndexerInStep` has the gate in it); nothing is said about ungated runs.
- PoolConsumer.AdvanceBlockPool: a download gives the parent or fails, after a given number of them; the abort signal and a failed send are left out, and blocks in the store are their identifiers.
- PoolConsumer.IndexerInStep: starts with an empty pool; priming the pool with the last indexed block is its first step with the event dropped, and is not described apart.
- BlockPools.BlockPool.ProcessHeader: requires stored parents to be lower than their children, as otherwise the walk to the ancestors need not end; heights are unbounded, so the overflow of a 64-bit height plus one is not modelled; log output is left out.
- BlockPools.BlockPool.CollectAndPruneConfirmedBlocks: requires stored parents to be lower than their children for the same reason; well-formed headers always are.
- DeliveryProperties.RunKeepsInvariant: starts with the loaded queue, a state that the program does not get to, as loading blocks (`DeliveryProgress.LoadingBlocks`); it says what the threads would do from there.
- DeliveryProgress.CanAlwaysStop: starts with the loaded queue as well, and says that a run can be continued until it stops, not that every schedule does; a thread that is never scheduled again is not excluded.
- DeliveryProperties.StopsAtFirstGap: heights below the start keep their compact bytes in the inbox; a send to a closed channel and what follows an abort are not described further.
- BlockCursors.FromStandardizedBlock: only the encoder for standardized blocks; the one for downloaded blocks drops inputs without a previous output and is not part of this model.
- BlkReaderProperties.ReadIffSkip: reserving memory for a claimed count or length, which may fail, is not modelled.
- Epochs.FindEpoch: the library's binary search is taken as the position of the first entry that is not smaller, which is the same on strictly increasing tables.
- EpochProperties.StepTooLong: the table entries it names are assumed, as the data files are not part of this model.
- WalletScripts.MintRoundTripIff: signing, fees and the outputs of a mint are left out.
- Envelopes.ReadTapscript: taking the script out of a witness is left out; input and envelope numbers are unbounded.
- Koinu names, degrees, percentiles, rarity, palindromes and the other number curiosities, which are closed formulas or degenerate with the compiled constants.
- Dune commitments and reserved dunes: one expression each.
- Databases, web handlers, RPC, ZMQ, signing, broadcasting, the block index and its files, configuration and command line: input and output.
