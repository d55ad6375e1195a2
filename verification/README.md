# Gavl, modelled and proved in Dafny

Gavl keeps one order board on many nodes. Writers append signed writes to their own chains; a chain of
proof-of-space-time anchors certifies how far each writer has got; every node folds the certified writes, in
the order the anchors give them, into the same board of offers and matches. A swap engine then carries each
match out as two hash-locked outputs, one on Bitcoin and one on Litecoin.

The project models five parts of it and proves what they are for.

| files | part of the system |
|---|---|
| `Ops.dfy`, `Board.dfy`, `BoardLaws.dfy`, `BoardRules.dfy`, `BoardEscrow.dfy`, `Ordering.dfy`, `Checkpoint.dfy` | the order board: its timed state, its operations, the fold order, and why a checkpoint never shows |
| `Anchors.dfy`, `Store.dfy`, `ForkChoice.dfy`, `Ballot.dfy`, `Work.dfy`, `ForkPrune.dfy`, `ForkOrder.dfy`, `Difficulty.dfy`, `AnchorChain.dfy`, `Space.dfy`, `AnchorProof.dfy` | the anchor chain: fork choice, finality, settlement, pruning, adoption, retargeting, mining and verifying |
| `Writers.dfy`, `LedgerSpec.dfy`, `LedgerDecay.dfy`, `LedgerMixed.dfy`, `LedgerForks.dfy`, `LedgerPrune.dfy`, `LedgerSeed.dfy`, `Ledger.dfy` | the multi-writer ledger: buffering, draining, decay, pruning, resuming from a checkpoint |
| `NodeLaws.dfy`, `Daemon.dfy` | the node that prunes ledger, anchors and fold base together, next to one that never forgets |
| `SwapTypes.dfy`, `SwapEngine.dfy`, `SwapRace.dfy`, `SwapReveal.dfy`, `SwapFunding.dfy`, `SwapLink.dfy` | the swap engine's steps, three transition systems in which the counterparty, the clock and crashes are free, and what ties the two together |
| `Base64.dfy`, `Chunk.dfy` | cutting messages into relay-sized parts and putting them back together within bounds |
| `Primitives.dfy`, `Runs.dfy` | optional values, JavaScript's string order, quotients and finite sums; runs of a transition system |

Objects the program updates in place are classes here (`LiveBoard`, `AnchorChain`, `WriterChain`, `Ledger`,
`Daemon`, `Side`, `Reassembler`), and their methods are proved against functions of the old state. Pure code is
functions. Each of the three swap systems is a `Runs.Machine` with a theorem over all runs.

## What the model takes as given

- Hashes are injective where it matters: `stateRoot` stands for the heads it commits to, `appRoot` for a board,
  an id fixes its content (`HashLaws`, `Lawful`, `IdsFixContent`). `Space.PathSound` names its collision
  freedom, and that no leaf is a node (`LeavesApart`: a leaf hashes other bytes than a node does);
  `Space.PathComplete` and `Space.RecoveredIsHeld` need neither.
- An adopted floor has a past it came from, which nobody on this node has seen (`AnchorChains.PastOf`,
  `AnchorChains.RealPast`). Where it is given none, history begins at the floor (`AnchorChains.TrustedPast`), and then
  no parentless anchor that gets as far as its proofs verifies (`AnchorChain.Lawful`): with block 0 installed that is
  block 0 itself, whose proofs are placeholders; without one the code would take the first that verifies
  (src/consensus/chain.ts:181-184).
- `Ops.ParseOp` makes every shape check of `parseOp` but one: that a key lifts to a curve point is part of a payload
  being well-encoded.
- `Ops.VerifyWrite` reads one recorded bit: whether a write's own proofs, id and signature check out is settled
  by the write alone. `AnchorChain.Add` takes the outcome of an anchor's proofs and of the application's state
  check as arguments; `AnchorProofs.VerifyAnchor` says what the first of these is.
- The time function, signatures and required iterations are functions with two laws (`AnchorProofs.Lawful`).
- Heads never regress along a chain (`Checkpoint.NeverRegresses`). `diffHeads` counts on it
  (src/consensus/anchor.ts:85-86) and `verifyAnchor` does not check it, so it is a hypothesis of the checkpoint
  results.
- Finality and settlement depth are both set, settlement at least as deep as finality, as the defaults and the
  comments in src/consensus/chain.ts have it.
- The clock, scans, the explorer's answers, wallet results and built transactions reach the engine's methods as
  arguments (`SwapEngine.Tick`).

## Where the code does less than its comments say

- Two nodes end a split on one tip only if each still holds the reference window of the fork, 64 anchors ending
  at it. The comment on `prune` asks for a margin that covers the retarget window and no more
  (src/consensus/chain.ts:337-347), and `prune` itself stops only at the lock and at settlement. For forks at or
  above the floor, which are all that settlement admits, a floor keeps every verdict if and only if it is 0, at
  least 63 below the fork, or 1 over an installed block 0, which counts for nobody (`ForkPrune.AgreesAtIff`).
  Otherwise a pruned and an unpruned node, each having heard the whole of the other's branch, can each keep its own:
  at the default depths a four-anchor line and two branches of six do it (`ForkPrune.PrunedAtTheFork`). The daemon
  prunes `max(GAVL_ANCHOR_MARGIN, window)` below its checkpoint, 256 unless set otherwise (src/daemon.ts:173, 607):
  from a margin of 64 on it is safe, once settlement is 63 above the floor it may have adopted
  (`Daemons.Daemon.VerdictIsTrue`, `Daemons.DaemonsAgree`).
- `resolveFork` decides only for a node locked above the fork; otherwise weight alone does. Two nodes that are both
  locked above it, or neither, end on one tip. Of one that is and one that is not, they do if and only if the lighter
  branch is not final (`ForkOrder.LocksDecide`). Locked above the fork, a node ends on the winner in whatever order
  the branches reach it (`ForkOrder.AnyOrderHeals`).
- Above a floor adopted with ancestry, `headsAt` walks on past the floor and starts from nothing. Its answer is
  right if and only if every writer certified below that ancestry has moved its head since
  (`Store.AdoptedHeads`). The writers it lacks have been quiet, so boards and pruning do not show it
  (`NodeLaws.QuietWritersDoNotShow`); the heads in the snapshots such a node would serve do.
- A stop on the way changes what `advance` reaches exactly when some listed offer's match is past its proof
  deadline and pruned in between (`BoardLaws.AdvanceSplitsExactly`). Every match the fold makes keeps its proof
  deadline before its prune height, so it never happens (`BoardLaws.TimelyKept`).
- A match dropped in escrow gives its capacity back to no one, and its offer can outlive it (2880 anchors against
  2200). What remains of an offer and its live fills make up what it gave if and only if none of its matches was
  ever pruned in escrow (`BoardEscrow.PlainCapacityIff`), and after a post, a take and two proofs in fold order one is
  (`BoardEscrow.EscrowLeavesGap`). With those fills counted as well, capacity is conserved always
  (`BoardLaws.CapacityConserved`).
- A writer's chain is opened on the plot the first write naming that writer gives, before anything is verified
  (src/ledger/ledger.ts:65-67). Arrival order does not matter if and only if that was the writer's own plot
  (`LedgerMixed.MixedOrder`); otherwise the writer's chain stays empty (`LedgerMixed.ForgedPlotFirst`).
- `apply` answers for the whole of draining. A write that links is taken, and its answer says so if and only if the
  buffer holds no write at the seq where draining ends (`LedgerForks.TakenIff`). After a writer's other chain left one
  there, the write is taken and refused (`LedgerForks.TakenButRefused`), and a node announces and stores only what is
  answered as applied (src/sync/node.ts:144-149).
- A chain resumed above a checkpoint has forgotten its plot and takes the next write's. Pruning is invisible up
  to exactly that (`LedgerPrune.ApplyAlikeIff`).
- The maker is safe on a height it decided at if and only if all delay together stays below the slack the window
  test left there (`SwapRace.SafeAtIff`), which is the policy's margin or more (`SwapRace.MakerSafe`) and can be
  the margin exactly: delay equal to it lets refund and claim compete for one block (`SwapRace.MarginCanBeExact`).
- The safety blocks protect the taker when its claim is mined within them, counted from the decision to claim.
  When the claim has to be sent again the secret is already out, so testing the window again would not help. If
  the network's delay is counted from the last time the claim was sent, the taker is paid in every run if and
  only if that was early enough for the window test still to hold (`SwapReveal.ResendSafeIff`).
- `lock` reads the clock again after the scan it relies on, so the 30-second grace has to cover both the time a
  funding goes unseen and that lag (`SwapFunding.FundsOnceIff`).
- `installGenesis` compares the heads it is given with the block's root but not with its delta, on which every
  later walk relies; it leaves a sound chain if and only if they agree (`AnchorChains.AnchorChain.InstallGenesis`).
- The claim script accepts a preimage of any length, and the engine reads only 32-byte ones
  (`SwapTypes.SecretRead`). The maker's result counts an unread secret as delay.

## Model

| member | source | states |
|---|---|---|
| Board.LiveBoard.RestoreCapacity | src/market/fold.ts:87-90 | a cancelled match's fill returns to its offer if that is still listed, and nothing else changes |
| Board.LiveBoard.Advance | src/market/fold.ts:97-107 | the in-place sweep reaches the board on which every deadline at or before the height has fired, whatever order the maps are walked in |
| Board.LiveBoard.SweepMatches | src/market/fold.ts:98-105 | after the walk each match is lapsed or pruned as its own deadlines say, and each offer has back exactly the fills that lapsed |
| Board.LiveBoard.ApplyOp | src/market/fold.ts:114-217 | every operation's new board or its refusal, with the refusals in the code's order; what that comes to is `BoardRules.WriteMoves`, `WriteMovesOffer` and `WriteAdds` |
| Board.LiveBoard.Take | src/market/fold.ts:131-168 | a take reserves the fill and opens the match, or leaves the board as it was |
| Board.LiveBoard.Prove | src/market/fold.ts:169-190 | a proof is recorded for its own side only, and both proofs put the match in escrow |
| Board.SweepOffersStep | src/market/fold.ts:87-105 | sweeping one more match gives back its fill exactly when it lapses |
| BoardRules.WriteMoves | src/market/fold.ts:169-217 | a write takes no match off the board and changes one only as its maker or taker: each party's proof while proofs are awaited, each party's lock in escrow, neither twice, and an abort by the maker before its lock; escrow comes exactly with the second proof |
| BoardRules.WriteMovesOffer | src/market/fold.ts:114-217 | an offer is withdrawn by its maker only; its capacity falls by the fill of a take nothing forbids and rises by that of an abort, and nothing else of it changes |
| BoardRules.WriteAdds | src/market/fold.ts:118-168 | what is new on the board is exactly the write's own listable post or permitted take, on the offer's terms at its price, with refunds of 12 and 24 hours, 10 anchors to prove and 2200 to live |
| BoardRules.TimeMoves | src/market/fold.ts:97-107 | time takes off what is at its prune height or expired, cancels what is past its proof height, and changes nothing else |
| BoardRules.BoardsAreOrderly | src/market/fold.ts:97-246 | on every board a fold reaches: no one deals with itself, no two matches share a hash, escrow means both proofs on the right chains, of distinct outpoints, and two different keys, and no match its maker locked for is cancelled |
| BoardRules.ShownIsCurrent | src/market/fold.ts:234-259 | on the board of an anchor nothing is past a deadline at its height, and the board is orderly as well |
| BoardRules.LockedStays | src/market/fold.ts:204-217 | whatever is written, a match in escrow with its maker's lock stays so, its fill held, until it is pruned |
| BoardRules.LastProofHeight | src/market/fold.ts:97-190 | a proof at the last height for it is taken |
| BoardRules.ProofTooLate | src/market/fold.ts:97-190 | and one anchor later the match is cancelled |
| BoardLaws.AdvanceSplitsExactly | src/market/fold.ts:97-107 | advancing to a then to b is advancing to b if and only if no listed offer's match lapses after it would have been pruned |
| BoardLaws.AdvanceComposes | src/market/fold.ts:97-107 | advance(advance(s, a), b) = advance(s, b) when every match has proofDeadline < pruneAt |
| BoardLaws.LifetimeOutlivesProofs | src/market/fold.ts:40-65 | the lifetime of a match is 2200 anchors whichever chain the taker pays on, and outlives the proof window |
| BoardLaws.TimelyKept | src/market/fold.ts:97-217 | proofDeadline < pruneAt for every match is kept by every advance and every write |
| BoardLaws.FoldSplits | src/market/fold.ts:234-246 | folding later writes onto the computed view of the earlier ones is the one-pass fold |
| BoardLaws.CapacityConserved | src/market/fold.ts:87-217 | over every run with distinct write ids, an offer's remaining plus the fills of its live uncancelled matches plus those dropped in escrow is what it gives |
| BoardEscrow.PlainCapacityIff | src/market/fold.ts:87-107 | remaining plus the fills of live uncancelled matches is what a listed offer gives if and only if the run never pruned a match of it in escrow |
| BoardEscrow.EscrowLeavesGap | src/market/fold.ts:97-107 | after a post, a take and both proofs, well formed, one write per seq and in fold order, it is 40 000 short of the 100 000 given once the match is pruned |
| BoardLaws.AdvanceKeepsBalance | src/market/fold.ts:97-107 | lapse, expiry and prune keep every listed offer's account balanced |
| BoardLaws.EnterKeepsBalance | src/market/fold.ts:114-217 | any write with a fresh id keeps it balanced, applied or refused |
| BoardLaws.TakeNeverDust | src/market/fold.ts:118-142 | for an offer the fold lists, a fill of at least minFill never reaches the dust-leg refusal |
| BoardLaws.ProRataSums | src/market/fold.ts:78-80 | the taker amounts of n fills add up to at most the pro-rata amount of their sum, and fall short by at most n-1 |
| BoardLaws.OfferNeverOversold | src/market/fold.ts:78-80 | fills within give.amount never cost more than want.amount, and fills of all of it cost at least want.amount less n-1 |
| BoardLaws.BoardNeverOversells | src/market/fold.ts:131-168 | on every reachable board the takers of a listed offer owe at most its wanted leg, and no leg of any match is dust |
| Ordering.EpochOf | src/consensus/order.ts:23-46 | each write gets the height of the first anchor whose delta reaches it, and no other write gets one |
| Ordering.CertifiedFirst | src/consensus/order.ts:23-46 | that height is of the first anchor whose delta names a head of the writer at or past the write |
| Ordering.BeforeTotal | src/consensus/order.ts:73-93 | the fold order is total on writes of distinct slots |
| Ordering.OrderUnique | src/market/fold.ts:231-246 | a set of stamped writes has one order, however it was sorted |
| Ordering.FoldedInTurn | src/consensus/order.ts:73-93 | every stamped write is folded once, at its certifying height; heights never fall, within one certifying height declared times never fall, within one time writers ascend, and within one writer seqs do |
| Ordering.EarlierTakeWins | src/market/fold.ts:131-168 | of two takes of the last of an offer, certified together, the one declared first is matched and the other refused |
| Primitives.StrLessAt | src/consensus/order.ts:89 | strings compare by the first place where they differ, or one starts the other |
| Ordering.Sort | src/market/fold.ts:234-246 | the sorted list holds the same stamps, in that order |
| Ordering.ComputeView | src/market/fold.ts:234-246 | the loop over sorted writes folds them, in the order of `Ordering.FoldedInTurn`, onto the base and advances to now |
| Ordering.ViewAtAnchor | src/market/fold.ts:255-259 | an anchor's board is a function of the set of writes held, its path and its heads; an unknown anchor gives the base |
| Checkpoint.IncludedIsCertified | src/consensus/order.ts:23-46 | on a chain whose heads never regress, a write is within the full heads exactly when some delta reached it |
| Checkpoint.EpochsSplit | src/consensus/order.ts:23-93 | what a checkpoint certified keeps its epoch, and the rest gets the same epoch from any suffix that reaches down to it |
| Checkpoint.OrdersJoin | src/consensus/order.ts:73-93 | the order below the checkpoint followed by the order above it is the order of both |
| Checkpoint.CheckpointInvisible | src/market/fold.ts:255-259 | folding the writes above a checkpoint over a pruned path from its board gives every later anchor the board of the full history |
| Anchors.DiffApplies | src/consensus/anchor.ts:87-99 | applying the difference gives the next heads back if and only if no writer disappears |
| Anchors.DiffIsLeast | src/consensus/anchor.ts:87-99 | and nothing that gives them back carries less |
| Store.AncestorsLine | src/consensus/chain.ts:136-144 | two ancestors of one anchor lie on one line |
| Store.HeadsFromPath | src/consensus/chain.ts:284-295 | the walk seeded at the floor, or run down to a root, reconstructs the overlay of all deltas since the root |
| Store.FloorRejoined | src/consensus/chain.ts:289-295 | a floor whose ancestry was stored again is reconstructed from the root, not seeded |
| Store.GrowKeeps | src/consensus/chain.ts:177-186 | storing an anchor whose parent is held changes no ancestry, no heads and no floor |
| Store.PruneKeeps | src/consensus/chain.ts:348-367 | dropping everything below a held floor leaves every anchor above it with its full heads known |
| Store.StepDown | src/consensus/chain.ts:359-363 | above the floor the walk down meets an anchor at every height |
| Store.AdoptedHeads | src/consensus/chain.ts:281-295 | above a floor adopted with ancestry, headsAt is right if and only if every writer certified below that ancestry has moved its head since; with none, always |
| ForkChoice.HeavierTotal | src/consensus/chain.ts:88-93 | heavier is a strict total order on distinct ids |
| ForkChoice.ForkPointIsLast | src/consensus/chain.ts:249-258 | the fork point is the last anchor the two branches share |
| ForkChoice.ForkPointSymmetric | src/consensus/chain.ts:249-258 | it is the same from either side |
| ForkChoice.OneMajority | src/consensus/chain.ts:262-278 | two branches cannot both be final |
| ForkChoice.SwitchLock | src/consensus/chain.ts:276-278 | the lock a switch re-anchors to is on the incoming branch, at or just above the fork |
| Ballot.VerdictMeans | src/consensus/chain.ts:249-279 | the tip is kept if farmers who built only on it won more than half of the last 64 anchors up to the fork, block 0 left out; the branch is final if its own did, with the lock on its first anchor; else weight decides, with the lock on the fork |
| Ballot.NothingShared | src/consensus/chain.ts:249-259 | and the tip is kept where no common anchor is held |
| ForkChoice.WindowIs | src/consensus/chain.ts:262-270 | the i-th anchor of a window lies i links below its end, and a short window ends where nothing deeper is held |
| Work.WeightIsWork | src/consensus/anchor.ts:219-220 | an anchor weighs more than an ancestor by the difficulties of the path between them |
| Work.WeightOfPath | src/consensus/anchor.ts:219-220 | and its weight is the sum of difficulties along its whole path, with its root's taken on trust |
| Work.MoreWorkIsHeavier | src/consensus/chain.ts:88-93 | so of two branches the heavier is the one with more work above the fork, or of as much the one with the lower id |
| ForkChoice.VerdictHeld | src/consensus/chain.ts:249-279 | a node that kept the reference window reaches the verdict of the full history |
| ForkChoice.ForkAgreement | src/consensus/chain.ts:207-227 | two nodes, each on its own side of a split and each holding the 64-anchor reference window of the fork, pick the same winner |
| ForkPrune.AgreesAtIff | src/consensus/chain.ts:337-367 | for a floor at or below the fork, on chains that pass verifyAnchor's checks of links, weight and heads: a pruned node and an unpruned one, each locked on its own branch and settled no higher than the fork, always end on one tip if and only if nothing of the reference window that counts lies below the floor; at every pair of depths that allows a switch as well |
| ForkPrune.PrunedAtTheFork | src/consensus/chain.ts:249-279 | at depths 2 and 6, over block 0 and three more anchors, pruned at the settled fork: both nodes hear the whole of two six-anchor branches and each keeps its own tip |
| ForkOrder.StepKeeps | src/consensus/chain.ts:200-229 | whichever branch the next anchor extends, the node is again on the tip fork choice picks among all it holds, as long as its lock lies above the fork when it comes on the other branch |
| ForkOrder.AnyOrderHeals | src/consensus/chain.ts:200-279 | so two nodes that end up with both branches are on one tip, in whatever order the anchors of either reached each, and from whichever side each began |
| ForkOrder.LocksDecide | src/consensus/chain.ts:200-229 | two nodes on the two branches end on one tip if and only if both are locked above the fork, or neither is, or the lighter branch is not final |
| Difficulty.RetargetBounded | src/consensus/difficulty.ts:22-47 | one retarget moves difficulty by at most the factor maxStep, and never to zero |
| Difficulty.RetargetMeans | src/consensus/difficulty.ts:22-47 | with o the rounded-down mean of the window, the new difficulty d has d * o <= current * target < (d + 1) * o within a step, and is exactly the bound beyond it |
| Difficulty.RetargetAntitone | src/consensus/difficulty.ts:35-47 | more iterations an anchor, never more difficulty |
| Difficulty.RetargetOnPace | src/consensus/difficulty.ts:35-47 | a mean on target leaves difficulty as it was |
| Difficulty.Retarget | src/consensus/difficulty.ts:35-47 | the loop computes the retarget of its window, which `Difficulty.RetargetMeans` characterises |
| Difficulty.NextDifficulty | src/consensus/difficulty.ts:69-83 | the difficulty after an anchor, from the window of its ancestry |
| Difficulty.EpochIsFlat | src/consensus/difficulty.ts:69-73 | on a chain of expected difficulties, an anchor and its descendant in one epoch have the same |
| Difficulty.BootstrapDifficulty | src/consensus/chain.ts:386-428 | whenever adopt's schedule condition holds, a node with the floor, its linked ancestry and what it added since computes the full chain's difficulty at and above the floor |
| Difficulty.PrunedDifficulty | src/consensus/chain.ts:348-367 | after a prune, so does a node for every anchor at least a window above the floor |
| Difficulty.AdoptMeans | src/consensus/chain.ts:386-412 | adopt's condition is an epoch boundary and as many linked ancestors as a window is longer than an epoch |
| Difficulty.LinkedRunIs | src/consensus/chain.ts:398-404 | the run it keeps is as long as the links hold, and no longer |
| AnchorChains.RaiseNests | src/consensus/chain.ts:148-158 | raising lock and settlement keeps settled under locked under tip, and each new settled anchor above the old |
| AnchorChains.MarksAfter | src/consensus/chain.ts:148-158 | and keeps the prune floor under all three |
| AnchorChains.RaiseFollows | src/consensus/chain.ts:148-158 | a mark on the tip's line is afterwards no deeper under the tip than its depth; if it moved it is higher than before and exactly that deep |
| AnchorChains.HeavierIsAnswered | src/consensus/chain.ts:200-228 | nothing heavier than the tip is passed over without a refusal, and nothing lighter takes its place but a branch that is final |
| AnchorChains.SplitHeals | src/consensus/chain.ts:207-227 | two nodes locked on opposite branches, settlement blocking neither and each holding the reference window of the fork, end on the same tip |
| AnchorChains.AnchorChain.DescendsFrom | src/consensus/chain.ts:136-144 | the walk terminates and finds exactly the ancestors |
| AnchorChains.AnchorChain.Finalized | src/consensus/chain.ts:316-326 | the k-deep ancestor of the tip, or the deepest held |
| AnchorChains.AnchorChain.ChainTo | src/consensus/chain.ts:306-314 | the path from the deepest held ancestor up |
| AnchorChains.AnchorChain.HeadsAt | src/consensus/chain.ts:284-295 | the heads from the caches or the walk, exactly as seeded |
| AnchorChains.AnchorChain.HeadsRefine | src/consensus/chain.ts:281-295 | unless ancestry was linked below an adopted floor, for every anchor above the floor these are the overlay of all deltas of the unpruned chain |
| AnchorChains.AnchorChain.FinalizedHeads | src/consensus/chain.ts:328-335 | with the same exception, the cached answer is the heads of the k-deep ancestor |
| AnchorChains.AnchorChain.ResolveFork | src/consensus/chain.ts:249-279 | the loops over both branches and the window reach the verdict: keep, switch for good, or switch if heavier |
| AnchorChains.AnchorChain.Weigh | src/consensus/chain.ts:262-270 | each producer's weight is the anchors it won in the window, genesis left out |
| AnchorChains.AnchorChain.Support | src/consensus/chain.ts:271-275 | a branch's support is what the producers on it alone won |
| AnchorChains.AnchorChain.Judge | src/consensus/chain.ts:200-228 | the fork-choice decision, and that whatever takes the tip keeps the settled anchor below it |
| AnchorChains.AnchorChain.Add | src/consensus/chain.ts:177-229 | the answer, what is stored, and the new tip, lock and settlement, on a chain from block 0, pruned, or adopted with or without ancestry. Always (`Valid`): lock and settlement are at most their depths under the tip, nested, every settled anchor descends from the earlier ones, each anchor weighs its difficulty more than its parent, and heads are true unless ancestry was linked. A mark that moves by depth comes to lie exactly that deep. What is built on the tip takes it; a second block 0, and an anchor of unknown parent, are refused |
| AnchorChains.AnchorChain.Prune | src/consensus/chain.ts:348-367 | the floor moves to the height asked for, or to the settled anchor's if that is lower, and never down; exactly the anchors below it go, no mark moves, and the reachable heads stay what they were |
| AnchorChains.AnchorChain.InstallGenesis | src/consensus/chain.ts:439-449 | succeeds exactly on an empty chain with a parentless block 0 and heads that match its root, roots the chain there, and leaves it sound if and only if the block's delta is its heads |
| AnchorChains.AnchorChain.Adopt | src/consensus/chain.ts:386-428 | succeeds exactly on a fresh chain with matching heads and enough linked ancestry, and keeps that run and the floor; a floor that has a past leaves a chain as sound as one that saw it and pruned, but for heads away from tip and floor where ancestry was linked |
| AnchorChains.RealPast | src/consensus/chain.ts:386-428 | a floor taken from the network's chain has one, whatever run of its ancestry is linked |
| AnchorChains.AnchorChain.AdoptedDifficulty | src/consensus/chain.ts:386-428 | while the run it adopted is held, the chain expects the full chain's difficulty after every anchor from the floor up |
| Space.BuildMerkle | src/pos/space.ts:45-59 | the layers of the tree, the last node of an odd layer paired with itself |
| Space.MerklePath | src/pos/space.ts:65-76 | the siblings on the way up |
| Space.VerifyMerkle | src/pos/space.ts:78-87 | accepts exactly what climbs to the root |
| Space.PathComplete | src/pos/space.ts:65-87 | the path of any leaf of any tree leads to the root |
| Space.PathSound | src/pos/space.ts:78-87 | without collisions, and with leaves apart from nodes, whatever leaf and path of any length are accepted at an index are that index's own |
| Space.NewPlot | src/pos/space.ts:100-109 | a plot of 2^k leaves of one identity, for k from 1 to 24 only |
| Space.Prove | src/pos/space.ts:112-128 | the first leaf of the lowest quality, with a path a verifier recovers that quality from |
| Space.RecoverSpaceQuality | src/pos/space.ts:163-175 | the quality, exactly for this identity's leaf at that index in the committed plot |
| Space.RecoveredIsHeld | src/pos/space.ts:112-175 | a recovered answer is a leaf the plot holds, and no better than the one it would give |
| Space.AcceptedIsOwnPath | src/pos/space.ts:163-175 | and it comes with exactly the path the plot would give for it |
| AnchorProofs.VerifyAnchor | src/consensus/anchor.ts:212-265 | accepts exactly when links and proofs check out, with the heads the delta gives |
| AnchorProofs.AcceptedIsPaid | src/consensus/anchor.ts:222-265 | where proofs and signatures bind: an accepted anchor's challenge cost every signage step from its parent, its plot answers that challenge, the time function ran at least as long again as the answer asks, and its producer signed the whole |
| AnchorProofs.IdSeals | src/consensus/anchor.ts:261 | and two accepted under one id differ in their signatures at most |
| AnchorProofs.WalkSignage | src/consensus/anchor.ts:175-189 | the walk ends at the first answered point or after 4096 steps, and its steps verify |
| AnchorProofs.Grind | src/consensus/anchor.ts:166-174 | the first genesis nonce the plot answers, up to 256 |
| AnchorProofs.MineAnchor | src/consensus/anchor.ts:147-207 | nothing if and only if the plot answers none of the nonces or signage points that may be tried; else, at the first it answers, an anchor that is accepted at its difficulty, with the very heads it was mined over, if and only if dom(prevHeads) is within dom(heads) |
| AnchorProofs.StandinComplete | src/consensus/space.ts:41-63 | a stand-in plot of the producer's key is a complete prover for the stand-in verifier |
| Writers.WriterChain.Append | src/chain/writer.ts:232-258 | the answer and the new chain, with index and weight kept in step |
| Writers.AppendKeepsLinear | src/chain/writer.ts:232-258 | every write held stays verified, on one plot, linked to the one before |
| LedgerSpec.ServeHolds | src/ledger/ledger.ts:71-111 | one genuine write leaves the chain a stretch of the truth, the buffer strictly ahead of it, and loses nothing |
| LedgerSpec.DrainHolds | src/ledger/ledger.ts:100-109 | draining takes the buffered writes up to the first gap, and only those |
| LedgerSpec.ArrivalOrder | src/ledger/ledger.ts:63-111 | after any order with repeats in which nothing decays, each chain ends exactly at the first gap in what was received and exactly what lies past it is buffered |
| LedgerSpec.RootFromSet | src/ledger/ledger.ts:115-129 | the state root depends only on the set received |
| LedgerDecay.DecaysIff | src/ledger/ledger.ts:70-93 | past the end of its chain, a buffered write is still waiting after a run if and only if no apply to its writer came more than 1024 applies after it |
| LedgerMixed.MixedOrder | src/ledger/ledger.ts:63-111 | the same among writes that do not verify, for a writer if and only if its chain was opened on its own plot; else the chain stays empty |
| LedgerMixed.MixedRoot | src/ledger/ledger.ts:115-129 | where every chain was, the state root depends only on the genuine writes received |
| LedgerMixed.ForgedPlotFirst | src/ledger/ledger.ts:65-67 | two writes in either order: one that does not verify and names another plot shuts the writer out only by coming first |
| LedgerForks.ChainsStayWhole | src/ledger/ledger.ts:63-111 | whatever arrives, two writes of a writer at one seq included, each chain is a stretch from the first seq on of received writes that each verify and link |
| LedgerForks.ReportedIff | src/ledger/ledger.ts:80-85 | a pair at one seq is reported if and only if the first of the two is still held or waits; the report is that verified write and the new one, and nothing changes |
| LedgerForks.SplitIsEvidence | src/ledger/ledger.ts:80-85 | two ledgers that hold different writes at one seq each report the pair on hearing the other's |
| LedgerForks.NoForkNoSplit | src/ledger/ledger.ts:63-111 | where no writer has two verified writes at one seq, any two ledgers hold the same as far as both reach |
| LedgerForks.TakenIff | src/ledger/ledger.ts:95-111 | a write that links is taken, and answered with exactly what was taken if and only if no buffered write stands where draining ends; else with a refusal |
| LedgerForks.TakenButRefused | src/ledger/ledger.ts:95-111 | two writes of an equivocating writer for which it is |
| LedgerPrune.PruneKeepsHeads | src/ledger/ledger.ts:159-170 | pruning at heads the ledger holds keeps heads, state root and total weight |
| LedgerPrune.RelinkTail | src/ledger/ledger.ts:165-168 | re-appending a linear chain's tail onto its own base is never refused |
| LedgerPrune.ApplyAlikeIff | src/chain/writer.ts:232-258 | one more write of any kind leaves the pruned and the full ledger alike if and only if it does not make the pruned one adopt a second plot |
| LedgerPrune.ApplySame | src/ledger/ledger.ts:63-111 | a same-plot write above the checkpoint gets the same answer from both |
| LedgerPrune.ApplyKeepsShape | src/ledger/ledger.ts:63-111 | any write, valid or not, leaves the chains linear and their bases where they were |
| LedgerSeed.PruneInvisible | src/ledger/ledger.ts:159-170 | over any run of such writes every answer, the final heads and the weight are the unpruned ledger's |
| LedgerSeed.SeedPlusTail | src/ledger/ledger.ts:149-155 | a ledger seeded with a checkpoint's heads and fed the writes above it ends with the heads of one fed everything |
| Ledgers.Ledger.Apply | src/ledger/ledger.ts:63-111 | the in-place apply, with its decay and drain loops, computes the specified ledger and answer |
| Ledgers.Ledger.HeadsNow | src/ledger/ledger.ts:115-124 | each writer's last write, or its checkpoint head |
| Ledgers.Ledger.IdAt | src/ledger/ledger.ts:139-144 | the id at a seq, the base head's included |
| Ledgers.Ledger.WritesFrom | src/ledger/ledger.ts:133-136 | exactly the held writes from a seq on, in order |
| Ledgers.Ledger.AllWrites | src/ledger/ledger.ts:181-185 | every write held, each once |
| Ledgers.Ledger.TotalWeight | src/ledger/ledger.ts:188-192 | the sum of all weights, pruned prefixes counted |
| Ledgers.Ledger.PruneBelow | src/ledger/ledger.ts:159-170 | the in-place prune computes the specified one |
| Ledgers.Ledger.SeedCheckpoint | src/ledger/ledger.ts:149-155 | every certified writer resumes above its head with an empty buffer |
| NodeLaws.CutWrites | src/daemon.ts:601-602 | a pruned ledger holds exactly the full one's writes above the checkpoint |
| NodeLaws.SameBoard | src/daemon.ts:530-539 | what a node folds from its base, over the anchors and writes it still holds, is the board of a node that never forgot |
| NodeLaws.WriteKeeps | src/daemon.ts:530-539 | no later write breaks that, unless it makes the pruned ledger adopt a second plot |
| NodeLaws.CheckpointKeeps | src/daemon.ts:587-608 | nor does a further checkpoint, whose board is the full node's |
| NodeLaws.SnapshotBehind | src/daemon.ts:320-348 | a fresh node seeded with a snapshot's heads and board stands where a full node would that checkpointed there |
| NodeLaws.SnapshotShown | src/daemon.ts:320-348 | the snapshot's board is the one every full node shows for its anchor, whatever more it holds |
| NodeLaws.QuietWritersDoNotShow | src/consensus/chain.ts:281-295 | heads that lack only writers with nothing since give the same board and the same pruning |
| Daemons.Daemon.HaveAllWrites | src/daemon.ts:561-566 | true exactly when every head's write is held |
| Daemons.Daemon.Start | src/daemon.ts:320-381 | a node started from a snapshot over an adopted floor keeps the invariant behind every other Daemon row, the board it shows among them |
| Daemons.Daemon.BoardAt | src/daemon.ts:530-539 | the board shown is the full node's, after any number of checkpoints |
| Daemons.Daemon.OnWrite | src/daemon.ts:522-539 | any write, other than one on a second plot, keeps the two nodes linked |
| Daemons.Daemon.OnAnchor | src/consensus/chain.ts:177-229 | any anchor keeps them linked, and the settled anchor above the checkpoint |
| Daemons.Daemon.Boundary | src/daemon.ts:585-589 | the settled anchor's ancestor at exactly the boundary height, or that none is held |
| Daemons.Daemon.MaybeCheckpoint | src/daemon.ts:574-614 | checkpoints exactly when the settled anchor's ancestor at the last boundary it crossed is new, held and has all its writes here; pruning ledger, fold base and anchors together keeps the two nodes linked, and leaves the floor at the margin below the checkpoint or where it was if higher |
| Daemons.Daemon.VerdictIsTrue | src/daemon.ts:604-608 | with a margin of at least 64 below the checkpoint, and settlement 63 above a floor it adopted, the verdict on any branch settlement admits is the one of the whole history |
| Daemons.DaemonsAgree | src/consensus/chain.ts:207-229 | two such nodes with the same history, each locked on its own branch, end on one tip, however differently they checkpoint |
| SwapTypes.PickExact | src/swap/engine.ts:256-261 | the first output of exactly the amount that no other precedes, or none if there is none |
| SwapTypes.PickedUnique | src/swap/engine.ts:256-261 | that rule names one output at most |
| SwapTypes.PickedIsBest | src/swap/engine.ts:256-261 | what it names is unspent if any output of the amount is, then confirmed if any such is, then confirmed no later than any |
| SwapTypes.MayLockMeans | src/swap/engine.ts:700-711 | the test the maker locks by: the exact amount, unspent, under as many blocks as the policy asks on its chain, the refund far enough off |
| SwapTypes.MayClaimMeans | src/swap/engine.ts:605-608 | the test the taker claims by: unspent, as deep, with a quarter of the refund window still ahead |
| SwapTypes.SecretRead | src/swap/engine.ts:264-268 | a claim gives its preimage away if and only if that has 32 bytes |
| SwapEngine.Side.AdoptLock | src/swap/engine.ts:560-563 | a lock already on the chain is taken for this side's, exactly when one of the exact amount exists |
| SwapEngine.Side.Lock | src/swap/engine.ts:831-845 | funds exactly when no recent intent stands, with the intent left behind if the funding throws |
| SwapEngine.Side.MakerLock | src/swap/engine.ts:670-721 | the maker funds exactly behind the taker lock it finds, if that passes the test and nothing else forbids it; it gives up exactly over one it refuses or one spent already, and, while it sees none, over an invalid proof of funds or the end of the window |
| SwapEngine.Side.MakerLocked | src/swap/engine.ts:723-778 | claims exactly when a counterclaim shows the secret and the taker's lock is unspent, refunds exactly what is due, and ends done, failed or refunded exactly as its claim or refund is confirmed or lost |
| SwapEngine.Side.MaybeRefund | src/swap/engine.ts:847-864 | refunds exactly what is unspent with as many confirmations as the timelock |
| SwapEngine.Side.StepMaker | src/swap/engine.ts:649-779 | one maker tick, exactly: what it posts, when it funds and when it gives up, what the verdict on the taker's proof becomes and when it is asked for, and with a lock what it claims and refunds and when it ends |
| SwapEngine.Side.TakerLock | src/swap/engine.ts:564-587 | funds exactly in escrow, in the window, behind a proven maker and with no recent intent; fails exactly on an invalid proof |
| SwapEngine.Side.TakerLocked | src/swap/engine.ts:589-645 | reveals the secret exactly for a lock confirmed enough and not too deep in its refund window, refunds exactly what is due, and ends done or refunded exactly as those are confirmed |
| SwapEngine.Side.StepTaker | src/swap/engine.ts:537-645 | one taker tick, exactly: it funds if and only if, in its window and under keys of its own seed, the maker's proof of funds has been verified, on this tick or an earlier one; what that verdict becomes; and with a lock what it claims, of exactly makerAmount as long as a recorded maker lock came with its claim, and refunds |
| SwapEngine.LearnedOpens | src/swap/engine.ts:738-746 | what is learned from a spend opens the lock, and something is learned exactly if some witness of the claim shows it |
| SwapEngine.SeenIsClaimed | src/swap/engine.ts:738-760 | a maker that sees its lock spent by other than its refund, with the secret, claims the taker's lock while that is there |
| SwapEngine.TestedIsClaimed | src/swap/engine.ts:603-626 | a taker that finds the maker's lock unspent, and passing the test, reveals its secret for it |
| SwapEngine.DueIsSent | src/swap/engine.ts:847-864 | an unspent lock is refunded as soon as the next block may hold that, and not before; a refund or claim once made is sent again while the output is there |
| SwapEngine.WindowMeetsPatience | src/swap/engine.ts:580-696 | the taker may fund exactly as long as the maker will wait its margin of anchors more for the lock to be seen |
| SwapEngine.UnconfirmedWaits | src/swap/engine.ts:701-705 | a lock seen but not deep enough gets thirty anchors more |
| SwapRace.RefundIsFar | src/swap/engine.ts:707-711 | while delay is below the slack, the taker's refund lies past the last moment the maker's coins can be in doubt |
| SwapRace.StepKeeps | src/swap/engine.ts:707-763 | every step of either party, the networks or the clock keeps the maker's horizon |
| SwapRace.SafeAtIff | src/swap/engine.ts:707-763 | for any terms, policy and clocks, no run decided at a height lets the taker claim the maker's lock and refund its own if and only if the delay allowed is below the slack there |
| SwapRace.BlockInReach | src/swap/engine.ts:707-711 | the maker's chain has the block that statement needs whenever the margin is at least one of its intervals |
| SwapRace.MakerSafe | src/swap/engine.ts:707-763 | the window test leaves the margin as slack: no run cheats the maker while all delay together stays below windowMarginSecs |
| SwapRace.MarginCanBeExact | src/swap/engine.ts:707-711 | with the default windows the slack can be the margin itself, and delay equal to it is too much |
| SwapReveal.StepKeeps | src/swap/engine.ts:606-627 | once the secret is out the taker holds an output of exactly makerAmount, its own or with no valid refund before its claim is mined |
| SwapReveal.TakerSafe | src/swap/engine.ts:596-627 | in every run the maker takes the taker's lock only if the taker is paid, for claims mined within the safety blocks of the decision, or of a last send at which the window test still held |
| SwapReveal.ResendSafeIff | src/swap/engine.ts:605-627 | counted from the last send, the taker is paid in every run if and only if claims are sent again only while the window test holds |
| SwapReveal.LateResendCheats | src/swap/engine.ts:627 | for any terms a claim can be decided under, a later send can lose the taker both |
| SwapLink.MakerTick | src/swap/engine.ts:649-779 | a maker tick that funds is a decision the race allows, it claims only after the taker has, and its refund can be mined in any block from the next on |
| SwapLink.TakerTick | src/swap/engine.ts:537-645 | a taker tick that claims is a decision to reveal that the other system allows, for exactly what is owed, and it sends the claim again only while it is pending |
| SwapLink.DriveMaker | src/swap/engine.ts:649-779 | any sequence of the engine's ticks on true scans, among anything else that can happen, is a run of the race, so while all delay stays below the margin the maker is not cheated |
| SwapLink.DriveTaker | src/swap/engine.ts:537-645 | and for the taker a run of the reveal, so the maker takes its lock only if the taker is paid |
| SwapLink.FundsBehindProof | src/swap/engine.ts:548-587 | in any sequence of ticks the taker funds only in time, and only after the first verdict it got on the maker's proof of funds, if that was good |
| SwapFunding.StepKeeps | src/swap/engine.ts:823-845 | every step, crashes included, keeps disk and memory remembering the one funding |
| SwapFunding.FundsOnceIff | src/swap/engine.ts:831-845 | no run funds twice if and only if the grace covers the time a funding goes unseen plus the lag from scan to decision |
| Base64.RoundTrip | src/sync/chunk.ts:42-57 | decoding base64 (section 4 of RFC 4648) gives the bytes back |
| Base64.EncodeShape | src/sync/chunk.ts:42-57 | four characters for every three bytes or part of three, all of them safe to cut between |
| Base64.SplitPayload | src/sync/chunk.ts:42-52 | the parts join to the encoding, each within the limit and none empty; refused exactly when they would be more than 1024 |
| Base64.SplitJoin | src/sync/chunk.ts:42-57 | joining what was split gives the text back |
| Chunks.FillCounts | src/sync/chunk.ts:115-120 | filling an empty slot adds one part and its length to the counters |
| Chunks.WithinCounts | src/sync/chunk.ts:115-125 | fewer partials never count more bytes |
| Chunks.Reassembler.Drop | src/sync/chunk.ts:174-179 | one partial and its bytes go, and the sender's map with the last |
| Chunks.Reassembler.Sweep | src/sync/chunk.ts:147-156 | exactly the partials older than the time to live go, and the delivered set expires and is capped at 4096 |
| Chunks.Reassembler.RememberedDone | src/sync/chunk.ts:152-155 | what stays recorded as delivered is all in its time, or the last 4096 of it |
| Chunks.Reassembler.EvictOldestOf | src/sync/chunk.ts:181-188 | a sender's quietest partial goes |
| Chunks.Reassembler.EvictOldest | src/sync/chunk.ts:190-197 | the quietest of all goes, if there is one |
| Chunks.Reassembler.Shed | src/sync/chunk.ts:123-125 | only the quietest go, until the byte cap is met and not one more |
| Chunks.Reassembler.TakeIn | src/sync/chunk.ts:100-134 | with room for it the slot is filled and the message delivered exactly when whole; without, whatever is left of the others is as it was, and nothing but this message, whole, is delivered |
| Chunks.Reassembler.Accept | src/sync/chunk.ts:90-134 | counters exact and both bounds kept; with room, a part fills its slot and the last one delivers; any delivery is what was cut up, and none is repeated while remembered |

## Left out

- Nostr transport, relays, HTTP server, desktop app, SQLite store, Esplora client, worker pools, Python bridge: I/O and foreign calls.
- SHA-256, Ed25519, BIP340, chiavdf, chiapos, Taproot scripts and transaction bytes: functions with the laws above.
- src/market/state.ts, serializing and cloning a view: comprehensions over maps, with nothing harder than the order-free fold already proved.
- `AnchorChain.constructor` without a finality or a settlement depth: both are always set here, as on the daemon and the server.
- AnchorChains.AnchorChain.FinalizedHeads: promises nothing on a chain adopted with ancestry; there `headsAt` is right exactly as `Store.AdoptedHeads` says.
- AnchorChains.AnchorChain.Add: assumes (`Lawful`), only where history is taken to begin at an adopted floor, that no parentless anchor verifies; a node that adopted with no genesis installed would accept one.
- `HashLaws` gives an anchor that was pruned and comes again the signature it had; `AnchorProofs.IdSeals` leaves that open, and nothing reads it again.
- ForkOrder.AnyOrderHeals: the order theorem is for nodes whose lock lies above the fork when the other branch's anchors come; `ForkOrder.LocksDecide` is about the rest.
- Daemons.Daemon.Start: takes an anchor chain adopted without ancestry; for one with it, `NodeLaws.QuietWritersDoNotShow` covers the board and the pruning, and the heads a snapshot carries are wrong as `Store.AdoptedHeads` says. Authenticating a snapshot by its child's appRoot is hashing.
- SwapLink.DriveMaker: a funding that throws has sent nothing; `SwapFunding.FundsOnceIff` is about one that has.
- LedgerMixed.MixedOrder: every write that verifies is the writer's one true write at its seq; `LedgerForks` is about writers with two.
- Anchors kept on dead forks that do not descend from the prune floor: their heads are not claimed.
- Interleavings inside the asynchronous `add`: it is one step.
- `verifyWrite` without its time proof on replay: a write's check has one outcome.
- Map iteration order among equally old partials: `Chunks.Reassembler.EvictOldest` removes some oldest one.
- Chunks.Reassembler.Accept: delivers the decoded bytes; that UTF-8 gives well-formed text back is the hypothesis of `Base64.SplitJoin`. Decoding of anything but canonical base64 is not modelled.
- The board's `viewCache`, the snapshot a node serves, its peers and its store: they repeat what `Daemons.Daemon.BoardAt` computes or are I/O.
- `chiapos` quality normalization: required iterations are a function of quality, commitment and difficulty.
- Engine notes, logs, fees, re-posting of operations and the API view; liveness of the engine and of gossip.
- SwapRace.MakerSafe: blocks come at target spacing and the chains do not reorganize, as the window test itself assumes.
