# A synchronised generation round, verified

Several nodes generate one text together. Each runs its own diffusion model over the same sequence, settles
masked positions of the current block step by step, and every few steps all of them exchange what they settled:
a COMMIT each, and a DISPUTE_SCORE each when proposals differ. Every node then merges the same data with the
same function, overlays the result on its own sequence and asks its own stop detector whether to freeze the
rest. Nobody adjudicates. The design stands on one claim: independent computation over the same data gives the
same state everywhere, in every interleaving.

This project models that round and proves the claim, in four layers.

1. **One node.** `LocalStep` is the denoising step on arrays; `Quota`, `StepFacts` and `Pace` say what it
   settles and at what pace. `StopDetection` is the detector against an offline reading of what it confirmed.
   `NodeMachine` is a participant's round as a state machine, `NodeLaws` its transitions told by the numbers of the
   configuration alone, `NodeFacts`, `FreezeFacts` and `NodeInvariant` what every step and every sync of it keep
   under any barrier outcome, `NodeRuns` what whole rounds do; `FrozenRound` holds concrete rounds. A node also
   keeps history (`steps`, `window`, `log`, `clean`) that no transition reads.
2. **Consensus.** `Consensus` holds the three merge functions as loops over dictionaries in arbitrary order,
   each proved equal to an order-free value of its input.
3. **Messages.** `Protocol` has the payloads and their round trips, `Inbox` the durable inbox and its
   histories, `SwarmNode` the poller over an arbitrary script of arrivals (`Transport`), `Round` the round
   lock, `Peers` and `Names` the peer table and its ordering, `Exchange` what a node says and reads in a sync,
   `Grounding` which messages are usable and what a round that heard no other kind rests on. `Generation` is
   the runner: its loops over arrays and dictionaries are proved to follow the node machine, and to publish
   nothing but what the machine says. What a view must be made of (`Exchange.CommitsFrom`,
   `Exchange.ReportsFrom`) is one definition for the runner and for the participants of layer 4.
4. **The swarm.** `SwarmSystem` runs one machine per participant over a set of published messages that
   are delivered in any order, early and any number of times; `SwarmSafety` is its inductive invariant,
   `SwarmAgreement` what follows from it, `Verdicts` who wins a dispute in it, `SwarmProgress` that it never works
   forever, never gets stuck and can always be finished, `Usability` that it never raises. `Runners` joins layers
   3 and 4: runners that missed nobody in any sync are such a swarm.

`Prelude` and `Arith` are small helpers. Start with `SwarmAgreement.Agreement`, `SwarmAgreement.NoLaterBlock`,
`SwarmAgreement.FreezeCondition`, `Verdicts.RunDecides`, `SwarmProgress.EveryRunCanFinish`, `NodeRuns.FinishedRun`,
`StepFacts.TransferContained`, `Generation.GenerationRunner.RunRound` and `Runners.RunnersAgree`.

Conventions: positions and tokens are natural numbers, probabilities and times exact reals. `exp` and `log` are
arbitrary functions, with the one law a lemma needs in its `requires`. The model is an oracle: any function from
the number of the forward pass and the sequence to a distribution, and a prediction from the vocabulary and an
EOS margin per position.
`torch.topk` is any choice of k best indices, ties free, with minus infinity as a value of its own. A Python
exception is the value `Raised`.

## What the proofs found

- **A freeze inside a block.** The step's quota counts the masks of the whole block
  (diffusion/local_step.py:133), while positions from the frozen boundary on score minus infinity
  (diffusion/local_step.py:119-120). A step stays inside its candidates if and only if the quota does not exceed
  their number (`StepFacts.TransferContained`); on the last step of a block that fails exactly when a mask lies
  at or beyond the boundary (`LastStepContained`). `topk` then takes positions that tie at minus infinity, any
  of them (`AnythingMayBeTaken`), so it may overwrite any position that is not a candidate, be it of the prompt, if
  and only if the quota exceeds the number of candidates (`MayOverwrite`). `FrozenRound.FreezeMayCostThePrompt` is
  a whole round, step by step, that returns a text whose prompt it has overwritten.
  Whether this can happen to a round is known the moment its first boundary is confirmed: in a finished round
  every step of everybody was contained if and only if that freeze did not leave, before the last sync of its
  block, a position of the block at or beyond the boundary unshared or masked (`SwarmAgreement.FreezeCondition`,
  `SameResult`; for one node under any barrier outcome `NodeRuns.FinishedRun`). If it did not, and always until
  there is a boundary, the prompt and the text of every block left behind stay as they were (`RunKeepsText`,
  `SameResult`). If it did, whoever comes to the last step of the block with all steps contained so far may take
  any position it likes (`HarmfulMayStray`).
  Much does not depend on it: agreement, the bounds on the boundary and the end of the round with its block
  (`NoLaterBlock`), that nothing below the boundary is missing from what is returned (`FinishedRun`), and that right
  after a sync everybody holds the same tokens of the current block, the shared state with masks in the gaps, and
  so has the same quota before it (`BlocksAgree`). Outside the block sequences may differ:
  `FrozenRound.FreezeMayCostTheMirror` has two nodes that miss nothing of each other, one of which ends with another
  token at the prompt than both of them share.
- **Whose round is it.** At the end of the loops and before every step the runner asks the round manager about
  the round it then holds (node/generation.py:151 and 195), not about the one it is running. Unless GEN_DONE for
  that very round arrives while it is being run they are the same (`Round.StillHeld`), and then its leader alone
  announces the end, and nobody gives it up before all that was dispatched from its leader is more than
  ROUND_LEADER_TIMEOUT old (`RunRound`, `Round.SilentSince`). After such a GEN_DONE a node may announce the end of a
  round it does not lead (`Round.MayLeadAnother`), give up a round whose leader it has just heard
  (`Round.MayGiveUpAnother`), or lead a round and never announce its end (`Round.MayLeadNone`).
- **GEN_START after the end.** A duplicate is ignored while its round is active and adopted as a new round
  afterwards (`Round.DuplicateStart`).
- **Malformed messages raise.** A DISPUTE_SCORE with a key that is no number, or with a position without
  candidates that nobody else scores, raises out of the round (`Consensus.ResolveDisputes`,
  `Protocol.DecodeScores`). So do COMMITs that dispute a position at or beyond gen_end or a token outside the
  vocabulary, where the own distribution is looked up (`Exchange.ScoreDisputes`), and any message that brings such
  a token into the sequence, at the next step (`WorkOnce`). All that a runner publishes is usable, whatever it has
  heard and however its round ends, and it raises only when it has been sent something that is not or its prompt is
  out of range: these two clauses of `RunRound` are why nobody raises among runners, as `Runners.NothingToBlame`
  spells out. Nor does any participant of the swarm (`Usability.NobodyRaises`).

Where prose and code differ, the model follows the code: docs/architecture.md:145-152 describes summed
logarithms and winners nobody proposed, while diffusion/consensus.py:119 sums exponentials and the candidates
are the disputed tokens only (node/generation.py:226-229); common/protocol.py:50-61 names `block_idx` and
`sync_idx`, while messages are keyed by `sync_seq` (node/generation.py:204-206); tests/test_swarm_integration.py:55
calls `collect_until` with an older signature.

## Model

| member | source | states |
|---|---|---|
| SwarmAgreement.Agreement | node/generation.py:199-250 | in every state of every run, any two participants that have finished sync n used the same commits and scores and hold the same shared state, detector, boundary and next control position, whatever their models predicted |
| SwarmAgreement.RunAgrees | node/generation.py:180-197 | at any moment of any run nobody is two syncs ahead of anybody; participants with equally many syncs behind them hold the same shared state, detector and block; right after a sync they hold the same tokens of the current block, freeze or not, and the same sequence until there is a boundary and in contained rounds after it; all who are done return the same |
| SwarmAgreement.NoVainWait | node/generation.py:204-238 | at any moment of any run, a COMMIT or report that somebody waits for has been said or its sender is still on its way to that very sync |
| SwarmAgreement.SameState | node/generation.py:180-193 | participants with equally many syncs behind them agree on shared state, detector and block, and on whether the round is over |
| SwarmAgreement.Skew | node/generation.py:203-238 | nobody is more than one sync ahead of anybody |
| SwarmAgreement.CommitComes | node/generation.py:204-212 | no COMMIT is waited for that its sender will skip: it is published, or the sender is still on its way to that sync |
| SwarmAgreement.ScoreComes | node/generation.py:223-238 | all participants agree whether a sync has a second phase, so no report is waited for in vain |
| SwarmAgreement.DoneIsComplete | node/generation.py:195-197 | a participant that is done has more syncs behind it than any that is not |
| SwarmAgreement.OnePayload | node/generation.py:203-210 | two COMMITs of one node for one sync list the same proposals |
| SwarmAgreement.CleanIsTidy | node/generation.py:164-165 | when everybody's steps were contained, every sync merged commits of its own block only |
| SwarmAgreement.TidyUntilBoundary | node/generation.py:164-165 | whatever a freeze does to later steps, every sync up to the first boundary merged commits of its own block only |
| SwarmAgreement.SameSequence | node/generation.py:189-193 | right after a sync nodes with equally many syncs hold the very same sequence, the shared state with masks in the gaps: always until there is a boundary, and in contained rounds after it |
| SwarmAgreement.StopStays | diffusion/stop_detection.py:63-65 | along a participant's history a boundary, once set, stays set and never moves up |
| SwarmAgreement.NoLaterBlock | node/generation.py:124-132 | in every state of every run: a confirmed boundary is at least gen_start and below the end of the block in which it was confirmed, no later sync belongs to another block, and no other block is begun |
| SwarmAgreement.FreezeCondition | diffusion/local_step.py:119-138 | in every state of every run: while no freeze has left, before the last sync of its block, a position of the block at or beyond the boundary unshared or masked, every step of everybody was contained; once somebody is done, only then; when all are done, exactly then |
| SwarmAgreement.HarmfulMayStray | diffusion/local_step.py:133-138 | after a freeze that did, whoever stands before the last step of the block with all steps contained so far has a next move that takes any given position that is no candidate |
| SwarmAgreement.RunKeepsText | diffusion/local_step.py:118-138 | in every state of every run: as long as no step was taken under a boundary, and in contained rounds to their end, the shared state holds the prompt as it was and the text of every block left behind as it was left |
| SwarmAgreement.NodeKeepsText | diffusion/consensus.py:130-162 | the same for one node, under any barrier outcome, whose syncs merged commits of their own blocks |
| SwarmAgreement.LinkKeepsPrefix | diffusion/consensus.py:150-162 | a sync that merged commits of its own block changes nothing before that block |
| SwarmAgreement.Final | node/generation.py:124-132 | over any stretch of such syncs the text behind the block at its start keeps its positions and tokens |
| SwarmAgreement.BlocksAgree | node/generation.py:190-193 | right after a sync, participants with equally many syncs stand before the same step with the same tokens of the block, whatever a freeze did to the rest of their sequences |
| SwarmAgreement.BlockFollows | node/generation.py:190-193 | and those tokens are the shared state with masks in the gaps |
| SwarmAgreement.SameQuota | diffusion/local_step.py:133-135 | so their next steps count the same masks and settle the same number of positions, whatever their models predict |
| SwarmAgreement.SameResult | node/generation.py:195-197 | participants that are done return the same shared state and boundary; nothing of the generation below the boundary is missing from it, and if the round never froze nothing at all, after num_blocks * ceil(steps_per_block / sync_every) syncs; everybody's steps were contained if and only if no freeze left a mask of its block behind, and then the prompt and all text behind are as they were |
| Verdicts.RunDecides | diffusion/consensus.py:94-127 | in every state of every run, of every dispute of every finished sync: the token written is one of those proposed, no other has a larger sum of all participants' own probabilities for it at that position, each kept at 1e-12 or more, and of those with an equal sum it has the lowest id |
| Verdicts.SyncDecides | diffusion/consensus.py:94-127 | the same of one sync whose reports are those that the nodes themselves make of their distributions |
| SwarmProgress.MovesAdvance | node/generation.py:137-193 | every move brings a node strictly nearer its end, and a delivery takes nobody back |
| SwarmProgress.BoundedWork | node/generation.py:124-193 | in any run, however long, a participant works, publishes or passes a barrier at most 4 * num_blocks * steps_per_block + 3 times |
| SwarmProgress.FillBucket | node/swarm.py:59-62 | delivering published messages fills the bucket of any barrier that everybody else has reached, and changes no node |
| SwarmProgress.HindmostServed | node/generation.py:211-238 | when all participants wait, the hindmost one finds everything it waits for already published |
| SwarmProgress.MoveEnabled | node/generation.py:155-250 | a participant whose barrier, if any, is filled can always move |
| SwarmProgress.SomebodyMoves | node/generation.py:204-238 | no deadlock: from any state of any run in which somebody is not done, deliveries alone let some participant move |
| SwarmProgress.EveryRunCanFinish | node/generation.py:99-197 | every run extends to one in which all participants are done, and then all return the same shared state, with nothing below the boundary missing and, if no freeze left a mask of its block behind, with the prompt and all text behind as they were |
| Usability.NobodyRaises | node/generation.py:211-246 | in every state of every run over a prompt of the vocabulary every published message is usable, every dispute a participant sees lies within its distribution, and every token it holds within the vocabulary |
| Usability.SoupUsable | node/generation.py:204-235 | every message published in the swarm has positions of the sequence, tokens of the vocabulary, numeric keys and a candidate at every position |
| Usability.DisputesScorable | node/generation.py:226-229 | no dispute a participant ever sees asks for a position or token that its distribution does not have |
| Usability.GenuineUsable | node/generation.py:203-235 | whatever a node in order says can be used by the others |
| Runners.RunnersAgree | node/generation.py:99-250 | runners whose syncs missed nobody, over a network that makes nothing up, agree on every sync both have finished, are never two syncs apart, and return the same shared state and boundary, with nothing below the boundary missing and, if no freeze left a mask of its block behind, with the prompt and all text behind as they were |
| Runners.RunnersDecide | node/generation.py:221-248 | and every dispute they settle goes to a proposed token with the largest sum of their own probabilities, the lowest id among equals |
| Runners.RunnerScores | node/generation.py:155-184 | those probabilities are the model's, from its pass on the sequence of the step that the sync followed |
| Runners.RunnersCohere | node/generation.py:211-245 | put together they are in order and every sync of each was made of what all the others said |
| Runners.RunnerTookPart | node/generation.py:99-250 | what RunRound ensures of one runner, its last state, what it heard and what it said, is what the theorems about several ask of each |
| Runners.NothingToBlame | node/generation.py:211-246 | when what is heard from each of the others is among usable messages of its own, which RunRound ensures of them, nothing is left that RunRound could raise on over a prompt of the vocabulary |
| SwarmSafety.CommitsRead | node/generation.py:211-219 | a complete COMMIT barrier yields exactly the commits every participant made for that sync, whatever was delivered twice, early or out of order |
| SwarmSafety.ScoresRead | node/generation.py:236-245 | a complete DISPUTE_SCORE barrier yields exactly the report every participant made for that sync |
| SwarmSafety.StepKeepsInv | node/generation.py:99-250 | every move and every delivery keeps the invariant of the swarm |
| SwarmSafety.RunKeepsInv | node/generation.py:99-250 | the invariant holds in every state of every run |
| NodeRuns.NodeRunKeepsInv | node/generation.py:99-250 | all per-node invariants hold after every step of every round, whatever the barriers delivered |
| NodeRuns.FinishedRun | node/generation.py:99-197 | a finished round, under any barrier outcome and any freeze, returns a shared state that misses no position below the boundary; with contained steps it covers every block it ran; if it merged commits of its block below the boundary only, its steps were contained if and only if no freeze left a mask of its block behind; if no boundary was set every step was contained, all blocks ran and nothing is missing; there were exactly ceil(steps_per_block / sync_every) syncs per block; the boundary is the least candidate that enough consecutive syncs agreed on |
| NodeRuns.RunPasses | node/generation.py:137-162 | the model's passes are numbered one after the other: block * steps_per_block + step is the number of steps taken before |
| NodeRuns.SyncScoredBy | node/generation.py:155-184 | every sync scores its disputes with the distribution of the model's pass on the sequence of the step that closed its window |
| FrozenRound.FreezeMayCostThePrompt | diffusion/local_step.py:116-138 | a concrete round of the node machine, from its start to its end, that returns another token at the prompt than the prompt has |
| FrozenRound.FreezeMayCostTheMirror | diffusion/local_step.py:116-138 | two concrete rounds of nodes that have seen all of each other's commits, after which they share one state but one of them holds another token in its sequence than it shares |
| NodeInvariant.WorkKeepsInv | node/generation.py:149-165 | a denoising step keeps every per-node invariant |
| NodeInvariant.SyncKeepsInv | node/generation.py:180-193 | a sync keeps every per-node invariant, whatever view it had |
| FreezeFacts.SyncKeepsOverlays | node/generation.py:190-193 | whatever view it had, a sync that goes on in its block leaves the block as the shared state with masks in the gaps |
| FreezeFacts.UndisturbedStep | diffusion/local_step.py:119-138 | with no mask of the block at or beyond the boundary a step is contained and leaves none there |
| FreezeFacts.SyncUndisturbed | diffusion/stop_detection.py:43-65 | and so does a sync that merges below the boundary, even one that moves the boundary down |
| FreezeFacts.GapStrays | diffusion/local_step.py:133-138 | with such a mask the last step of the block is not contained |
| FreezeFacts.GapSurvives | node/generation.py:190-193 | and such a mask outlives every sync that merges below the boundary |
| FreezeFacts.FinishedClean | diffusion/local_step.py:119-138 | a finished round that merged below the boundary was contained throughout if and only if no freeze left a mask behind |
| NodeFacts.WorkKeepsWindowed | node/generation.py:164-165 | what a node has pending is its window's steps, later ones winning, and every step is in one window |
| NodeFacts.SyncKeepsWindowed | node/generation.py:180-189 | each sync closes a window of 1 to sync_every steps with a COMMIT of exactly that window, and pending is empty after it |
| NodeFacts.FoldIsLast | node/generation.py:164-165 | a COMMIT names exactly the positions its window settled, each with the proposal of the window's last step that settled it |
| NodeFacts.LastStepSettlesAll | diffusion/local_step.py:133-138 | a contained last step leaves no mask in the block |
| NodeFacts.WorkKeepsCovering | diffusion/local_step.py:133-138 | after the last step of a block of contained steps every position of it is shared or about to be |
| NodeFacts.SyncKeepsCovering | node/generation.py:180-193 | after its final sync the shared state covers the block, under any barrier outcome |
| NodeFacts.LastStepSettlesBelow | diffusion/local_step.py:116-138 | the last step of a block leaves no mask below the boundary, contained or not |
| NodeFacts.WorkKeepsFilled | diffusion/local_step.py:133-138 | after the last step of any block every position of it below the boundary is shared or about to be |
| NodeFacts.SyncKeepsFilled | node/generation.py:180-193 | and a sync keeps that, whatever view it had, since the boundary never rises |
| NodeFacts.FinishedFilled | node/generation.py:195-197 | a finished node shares everything below the boundary |
| NodeFacts.FinishedRound | node/generation.py:195-197 | the same for a node state: coverage after contained steps, the exact number of syncs, and all blocks run when no boundary was set |
| NodeFacts.WorkKeepsAging | diffusion/local_step.py:140-146 | j steps into a window no settled position of the block is older than j |
| NodeFacts.SyncKeepsAging | node/generation.py:190-193 | a sync resets every settled position of the block to age 0 |
| NodeFacts.NeverReopens | diffusion/local_step.py:100-107 | with remask_min_age >= sync_every no step of any round reopens anything |
| NodeFacts.WorkKeepsMirroring | node/generation.py:159-165 | between syncs the sequence is the shared state below the block and masks beyond it, and pending lies in the block |
| NodeFacts.SyncKeepsMirroring | node/generation.py:189-193 | right after a sync, in rounds of contained steps whose foreign commits lie in the block, the whole sequence is shared_x.get(p, mask_id) |
| NodeFacts.SameSharedSameSequence | node/generation.py:189-193 | then nodes with equal shared states hold equal sequences |
| NodeFacts.SyncKeepsBounded | diffusion/stop_detection.py:46-65 | as long as the commits merged up to the first boundary lie in their block, the boundary is at least gen_start and below the end of the current block, and once set ends the round with that block; in every round a boundary once set stays set and never rises |
| NodeFacts.BoundaryIsOffline | node/generation.py:250 | the boundary of a round is the least candidate confirmed by stop_confirmations consecutive non-empty syncs |
| NodeFacts.WorkKeepsCleanUntilFrozen | diffusion/local_step.py:116-138 | as long as no boundary is set every step is contained |
| NodeMachine.WorkKeepsShape | node/generation.py:137-181 | steps stay in range and sync_seq and the window's length are functions of block and step |
| NodeMachine.SyncKeepsShape | node/generation.py:180-189 | likewise across syncs: sync_seq == block * ceil(steps_per_block / sync_every) + step / sync_every |
| NodeLaws.WorkCounts | diffusion/local_step.py:133-138 | a step at block b settles ceil(m / steps left) positions, where m counts the masks of [gen_start + b * block_length, gen_start + (b + 1) * block_length) |
| NodeLaws.WorkRanks | diffusion/local_step.py:85-138 | it passes over a mask of that block before the boundary only for others of that kind that the model was no less sure of, EOS guesses short of the margin counting for 100 less |
| NodeLaws.WorkReopens | diffusion/local_step.py:97-114 | what it reopens, by the numbers of the configuration: eligibility, threshold, cap, worst first, and nothing on the reserved last steps |
| NodeLaws.WorkLeaves | node/generation.py:155-181 | the sequence, the ages, the pending commits with their confidences and whether a sync is due after a step |
| NodeLaws.SyncLeaves | node/generation.py:124-193 | after a sync the shared positions of its block hold the agreed token and age 0 and nothing else moved; a block is begun only if one is left and it starts before the boundary |
| NodeLaws.StartIs | node/generation.py:105-122 | a round starts with the prompt, shared, and masks after it |
| Pace.StepShare | diffusion/local_step.py:133-138 | an unhindered step takes exactly its quota off the block's masks |
| Pace.SyncOnlyFills | node/generation.py:190-193 | a sync inside a block only takes masks away |
| Pace.RoundInPace | diffusion/local_step.py:133-138 | in every state of every round that reopens nothing and settles no mask token, after j steps of a block masks * steps_per_block <= block_length * (steps_per_block - j), whatever the others settled |
| Generation.GenerationRunner.RunRound | node/generation.py:99-197 | under any messages, delays and models the runner returns the shared state at the end of a run of the node machine, or nothing after a failed check of the leader; every forward pass of that run was the model's on the sequence it then had, and before each the socket was read and the leader checked; it raises only on a prompt outside the vocabulary or on a message of another participant that no runner sends, and all it publishes, however it ends, is usable; it publishes only what the machine says and last, if it then leads the round its manager holds, GEN_DONE; if no GEN_DONE for this round arrived meanwhile, that is if and only if it leads this round, and a round given up is led by another node, and its start and every message dispatched from that node are more than ROUND_LEADER_TIMEOUT old |
| Generation.GenerationRunner.OwnRound | node/generation.py:151-196 | as long as no GEN_DONE names the round run, the manager still holds it: the node leads what the manager holds if and only if it leads that round, and giving up means that everything dispatched from that round's leader is more than ROUND_LEADER_TIMEOUT old |
| Generation.GenerationRunner.RunBlocks | node/generation.py:124-132 | the block loop, left at a block beyond the boundary, ends with the machine done |
| Generation.GenerationRunner.RunBlock | node/generation.py:134-193 | the step loop takes the machine from the start of a block to the next |
| Generation.GenerationRunner.RunStep | node/generation.py:149-193 | the socket is read and the leader checked, and unless that check fails a step is taken, with the sync it may be time for |
| Generation.GenerationRunner.Poll | node/generation.py:149-153 | one message at most is dispatched and the leader checked once: either that check ended a round, or no round was ended and the leader of the round held, if another node, was heard or the round began within ROUND_LEADER_TIMEOUT |
| Generation.GenerationRunner.Advance | node/generation.py:155-193 | a step and the sync that it may be time for are steps of the machine |
| Generation.GenerationRunner.WorkOnce | node/generation.py:155-165 | the model is asked about the sequence itself, with the number of the pass, and the step on the arrays is the machine's step with its answer; it raises exactly when the sequence holds a token outside the vocabulary |
| Generation.GenerationRunner.AddPending | node/generation.py:164-165 | every settled position enters the pending commits with the predicted token and its probability, replacing an earlier proposal, and nothing else changes |
| Generation.GenerationRunner.SyncAndOverlay | node/generation.py:182-193 | a sync with its overlay is the machine's sync |
| Generation.GenerationRunner.Overlay | node/generation.py:190-193 | exactly the block's shared positions take the agreed token and age 0 |
| Generation.GenerationRunner.DoSync | node/generation.py:199-250 | whatever arrived, the result is the machine's sync with the view collected: merged state, detector, boundary; a sync shorter than one timeout has everybody's commits and reports; it raises only on a dispute out of range or a malformed report, and even then what it published is usable |
| Generation.GenerationRunner.CommitPhase | node/generation.py:203-219 | one COMMIT listing the own commits is published before anything is polled, and the view is the own commits and what the inbox bucket held of the others |
| Generation.GenerationRunner.PublishCommits | node/generation.py:203-210 | one COMMIT with the own commits and nothing else is published |
| Generation.GenerationRunner.ScorePhase | node/generation.py:225-246 | one report is published before anything is polled, with log(max(1e-12, p[pos, tok])) under the keys str(pos) and str(tok) for every disputed position and token, and the winners are those of the own report and of what the bucket held of the others; a dispute out of range raises before anything is published, and otherwise only a malformed report does |
| Generation.GenerationRunner.PublishScores | node/generation.py:226-235 | the report published, key by key, or nothing when a dispute lies outside the own distribution |
| Generation.GenerationRunner.ResolveReports | node/generation.py:240-246 | the winners of the own report and those collected; it raises only on a malformed one |
| Generation.GenerationRunner.Canvas | node/generation.py:115-116 | the prompt followed by masks |
| Generation.GenerationRunner.Announce | node/generation.py:195-196 | GEN_DONE is published if and only if the node leads the round its manager then holds, and nothing else is |
| Generation.SyncSays | node/generation.py:203-235 | what a sync publishes is genuine for the machine's state after it, and all it said before stays said |
| Generation.SizesValid | node/generation.py:105-108 | the sizes derived from a usable configuration fit: every block lies within the sequence |
| Generation.SetupIs | node/generation.py:100-108 | num_blocks * block_length <= gen_length < (num_blocks + 1) * block_length, steps_per_block * num_blocks <= steps < (steps_per_block + 1) * num_blocks, gen_end lies gen_length after the prompt, and the participants are those the round names |
| Exchange.ReadCommits | node/generation.py:214-219 | the view is the own commits and every collected payload as it unflattens |
| Exchange.ReadReports | node/generation.py:240-245 | the scores are the own ones and every collected report decoded; it raises only on an unusable one |
| Exchange.OwnReportFits | node/generation.py:226-229 | a node's report scores exactly the disputed positions and exactly their tokens |
| Exchange.ScoreDisputes | node/generation.py:226-229 | scoring raises exactly when some disputed position or token lies outside the own distribution; else every disputed token scores the logarithm of its own probability at its position, kept at 1e-12 or more |
| Exchange.OwnReportScores | node/generation.py:226-229 | a report gives every disputed token log(max(1e-12, p[pos, tok])) and nothing else |
| Exchange.OwnReportOnWire | node/generation.py:230-235 | and that is what is sent, under the decimal renderings of position and token |
| Exchange.ReportWellFormed | node/generation.py:226-235 | a report on exactly the disputes of a view has, as sent, numeric keys and candidates at every position |
| Exchange.UsableReports | node/generation.py:240-246 | usable reports leave no position without a candidate |
| Grounding.DisputesInDomain | node/generation.py:221-229 | commits of positions of the sequence and tokens of the vocabulary only make disputes that can be scored |
| Grounding.SharedInVocab | diffusion/consensus.py:130-162 | a sync over such commits and reports keeps the shared state in the vocabulary |
| Grounding.RaisedIsHeard | node/generation.py:211-246 | when a sync cannot score a dispute or decode a report, another participant has sent what no participant sends |
| Grounding.SyncKeepsGrounded | node/generation.py:211-248 | every sync of a round is made of what the inbox collected for it, and while only usable messages were heard sequence and shared state stay in the vocabulary |
| Consensus.GroupProposals | diffusion/consensus.py:87-90 | the grouping is each proposed position with the set of tokens proposed, in whatever order entries are visited |
| Consensus.DetectDisputes | diffusion/consensus.py:79-91 | exactly the positions with more than one distinct proposal, with all their proposals |
| Consensus.DisputesAre | diffusion/consensus.py:79-91 | they are the positions where two nodes committed different tokens, each with all the tokens that anybody committed there |
| Consensus.SumScores | diffusion/consensus.py:114-119 | the totals equal an order-free sum per position and candidate, whatever the order of reporters, positions and candidates |
| Consensus.MaxCandidate | diffusion/consensus.py:122-125 | the candidate with the highest score, and the lowest id of those that have it |
| Consensus.WinnerUnique | diffusion/consensus.py:106-109 | there is one such candidate, so everybody lands on it |
| Consensus.ResolveDisputes | diffusion/consensus.py:94-127 | for every scored position the candidate with the highest total, and the lowest id of those that have it; it raises exactly when some scored position has no candidate |
| Consensus.WinnerLaw | diffusion/consensus.py:122-125 | no candidate has a higher total than the winner and none with an equal total a lower id |
| Consensus.DominatedNeverWins | diffusion/consensus.py:33-50 | a token that every reporter scores no higher than another one, and somebody strictly lower, never wins |
| Consensus.ScoresAverageProbabilities | diffusion/consensus.py:99-104 | disputes are decided by the sum of the clamped probabilities themselves |
| Consensus.MergeConsensus | diffusion/consensus.py:130-162 | old positions plus committed ones; untouched ones keep their token, resolved ones take the winner, others a proposed token; determined whenever each of those has one proposal |
| Consensus.MergeIs | diffusion/consensus.py:150-162 | position by position: what was resolved or else what somebody committed there, or what was held before |
| Consensus.MergeUnique | diffusion/consensus.py:154-160 | with single proposals wherever nothing was resolved, only one result is possible |
| Consensus.OwnScoresCover | node/generation.py:225-248 | a node's own report resolves every dispute it sees, so the fallback on the only token meets a singleton |
| Consensus.SyncWrites | diffusion/consensus.py:135-162 | one sync adds the committed positions only, and under complete views every token written was proposed there |
| Protocol.Flatten | node/generation.py:203-210 | three parallel lists naming every commit once |
| Protocol.Unflatten | node/generation.py:215-219 | the map that zipping the lists gives, up to the shortest, later entries winning |
| Protocol.UnflattenedIs | node/generation.py:215-219 | every position that all three lists reach, with the last token and confidence listed for it |
| Protocol.CommitRoundTrip | node/generation.py:203-219 | zipping what was flattened, in any order, is the identity on commit maps |
| Protocol.ParseStr | node/generation.py:233-244 | int(str(n)) == n for every natural number |
| Protocol.StrIs | node/generation.py:233-234 | str(n) has decimal digits only and no leading zero |
| Protocol.StrInjective | node/generation.py:233-234 | different positions and tokens get different keys |
| Protocol.KeyIs | node/generation.py:242-244 | the keys that can be read are the non-empty strings of decimal digits, and they are read as decimal numbers |
| Protocol.DecodeScores | node/generation.py:242-245 | raises exactly when some key is no number; else every position and token decoded has an entry of the wire behind it and none is lost |
| Protocol.TokensRoundTrip | node/generation.py:233-244 | decoding one encoded map of token scores gives it back |
| Protocol.ScoresRoundTrip | node/generation.py:233-245 | decoding an encoded report gives it back, with no key collisions |
| Protocol.EncodedReportsDecode | node/generation.py:233-245 | an encoded report never raises |
| LocalStep.LocalStep | diffusion/local_step.py:62-148 | the masks, scores and copies written in place give an admissible choice of both sets, and position by position: the predicted token where settled, a mask where only reopened, else the token as it was, and ages 0, 0 and one more unless masked |
| LocalStep.Remask | diffusion/local_step.py:97-114 | reopens an admissible set: none in the reserve steps, all low-confidence eligible positions, or the worst of them up to the cap |
| LocalStep.TransferScores | diffusion/local_step.py:116-122 | minus infinity off the masks, outside the block and past the boundary; untrusted EOS guesses 100 lower |
| LocalStep.TopK | diffusion/local_step.py:112-137 | k indices that score at least what every other one does, in any order of ties |
| LocalStep.CountMasks | diffusion/local_step.py:133 | the number of masks in the whole block |
| LocalStep.SelectTransfer | diffusion/local_step.py:124-138 | the quota's number of best-scored positions |
| LocalStep.Settle | diffusion/local_step.py:140-146 | the updated copies of sequence and ages |
| StepFacts.TransferContained | diffusion/local_step.py:116-138 | a step settles candidates only if and only if the quota is at most their number; otherwise all of them and, for the rest of the quota, other positions |
| StepFacts.TransferExact | diffusion/local_step.py:116-138 | with no mask at or beyond the boundary a step settles masks of the block only, exactly ceil(remaining / steps_remaining) of them, none of them reopened, and all of them on the last step |
| StepFacts.TransferCounts | diffusion/local_step.py:133-138 | a step settles the least k with k * steps_remaining >= the number of masks of the block |
| StepFacts.TransferRanks | diffusion/local_step.py:85-138 | a mask of the block before the boundary is passed over only for others of that kind whose p(i, x0(i)) is no less, with 100 off for an EOS guess short of the margin |
| StepFacts.TransferAllowed | diffusion/local_step.py:133-138 | and any choice that counts and ranks like that may be the one |
| StepFacts.LastStepContained | diffusion/local_step.py:133-138 | on the last step the condition is that no mask of the block lies at or beyond the boundary |
| StepFacts.UnfrozenContained | diffusion/local_step.py:119-138 | without a boundary every step is contained |
| StepFacts.AnythingMayBeTaken | diffusion/local_step.py:119-138 | once the quota takes in all candidates, the possible outcomes are all sets of quota size that hold them, whatever else they hold |
| StepFacts.MayOverwrite | diffusion/local_step.py:116-138 | a step may overwrite a given position that is not a candidate if and only if its quota exceeds the number of candidates |
| StepFacts.FrozenStepMayOverwritePrompt | diffusion/local_step.py:119-138 | a concrete last step, with a boundary inside the block, that may overwrite the prompt |
| StepFacts.RemaskSettled | diffusion/local_step.py:101-114 | only settled, old enough, unfrozen positions of the block are reopened |
| StepFacts.RemaskRationed | diffusion/local_step.py:97-114 | nothing in the reserve steps, never more than the cap, the least confident first |
| StepFacts.RemaskIs | diffusion/local_step.py:97-114 | exactly what may be reopened, in terms of the inputs: eligibility, threshold, cap, worst first, and nothing on the reserved steps |
| StepFacts.NextIs | diffusion/local_step.py:140-146 | sequence and ages after a step, position by position |
| StepFacts.StaysInBlock | diffusion/local_step.py:102-138 | a contained step touches its block only |
| StepFacts.EosPriority | diffusion/local_step.py:94-138 | an EOS guess short of the margin is settled only if every other candidate is, and among either kind nothing left out was more confident than something settled |
| StepFacts.YoungStays | diffusion/local_step.py:102-107 | nothing younger than remask_min_age is reopened |
| StepFacts.MasksLeft | diffusion/local_step.py:133-143 | a contained step that reopens nothing and predicts no mask removes exactly its quota from the block's masks |
| StepFacts.StepEnabled | diffusion/local_step.py:97-138 | every input has an outcome: topk is never asked for more than it is given |
| StepFacts.RoundIsNearest | diffusion/local_step.py:97 | the reserve is rounded to nearest, ties to even |
| Quota.ShareIsCeiling | diffusion/local_step.py:134 | the negated floor division is the ceiling of remaining / steps_remaining |
| Quota.ShareBounds | diffusion/local_step.py:133-135 | the quota is between 0 and remaining, positive while anything remains, and everything on the last step |
| Quota.Schedule | diffusion/local_step.py:133-138 | from L masks over S steps, L mod S steps settle floor(L/S)+1 and the others floor(L/S), and nothing is left |
| Quota.BelowTheLine | node/generation.py:155-193 | if every step leaves at most what its quota would, r_i * S <= L * (S - i) after every step |
| StopDetection.StopDetector.Check | diffusion/stop_detection.py:38-70 | the loops find the one reading of the shared state, and the fields move by one step of the specification: a streak goes on or begins anew, and the boundary moves to a lower candidate confirmed often enough |
| StopDetection.Read | diffusion/stop_detection.py:43-55 | the reading is nothing, unqualified, or the start of the maximal EOS run that ends at the frontier |
| StopDetection.ReadIs | diffusion/stop_detection.py:43-55 | the frontier is one past the last committed position, the run is that of EOS ending there, and it qualifies when more than min_gen_length lies before the frontier and the run is at least stop_run_min long |
| StopDetection.ReadingUnique | diffusion/stop_detection.py:6-8 | nodes that hold the same shared state read the same |
| StopDetection.CandidateBounds | diffusion/stop_detection.py:46-56 | a candidate lies in what has been committed, and from it on only EOS is |
| StopDetection.DetectorIsOffline | diffusion/stop_detection.py:43-70 | after any checks stop_pos is the least candidate that some stop_confirmations consecutive non-empty checks agreed on, and None if there is none |
| StopDetection.StopNeverRises | diffusion/stop_detection.py:63-65 | once set, stop_pos stays set and never rises |
| Inbox.BucketIsLatest | node/swarm.py:59-62 | after any history of filing and popping a bucket holds, per sender, its latest payload since the key was last popped, and nothing else |
| Inbox.DuplicateIsIdle | node/swarm.py:59-62 | a message delivered again while its bucket is open changes nothing |
| Inbox.CollectedIsLatest | node/swarm.py:71-91 | what is collected is, from each expected sender, its latest payload under the key dispatched since the last pop, before or during the collecting |
| Inbox.CollectedWasFiled | node/swarm.py:71-91 | nothing is collected that was not dispatched |
| SwarmNode.SwarmNode.Dispatch | node/swarm.py:39-63 | every message reaches peers, round manager and inbox: one from another node that leads the round held sets its clock to now, a heartbeat or HELLO marks its sender alive now, BYE removes it, GEN_START begins a round led by its sender if there is none, GEN_DONE ends the round it names; a node's own messages neither prove its leader alive nor enter the peer table |
| SwarmNode.SwarmNode.PumpOnce | node/swarm.py:65-69 | at most one message is read, and it is dispatched |
| SwarmNode.SwarmNode.AwaitOne | node/swarm.py:78-89 | one turn of the loop keeps what is received equal to the bucket restricted to the expected senders |
| SwarmNode.SwarmNode.CollectUntil | node/swarm.py:71-91 | returns the bucket restricted to the expected senders at the moment it is popped; everybody expected is in it or the whole timeout has passed; nothing is polled when all was there already |
| SwarmNode.SwarmNode.StartRoundAsLeader | node/swarm.py:108-117 | raises exactly while a round is active, and otherwise starts one led by the node and announces it with the sorted participants |
| SwarmNode.SwarmNode.CheckLeaderTimeout | node/generation.py:151-153 | true exactly when another node leads the round held and its start and every message dispatched from that node are more than ROUND_LEADER_TIMEOUT old, and then that round is gone |
| Round.RoundManager.StartRound | node/round.py:25-32 | a fresh round of the node's own, named after it, with the participants sorted and the clock at now |
| Round.RoundManager.OnGenStart | node/round.py:34-49 | ignored while a round is active, else adopted with its sender as leader, the participants sorted and the receive time |
| Round.RoundManager.OnGenDone | node/round.py:51-54 | ends the round it names and no other |
| Round.RoundManager.NoteLeaderActivity | node/round.py:56-59 | moves the clock for the leader of the active round only |
| Round.RoundManager.CheckLeaderTimeout | node/round.py:61-82 | fails the round exactly when another node leads it and its silence exceeds the limit |
| Round.RoundLock | node/round.py:25-82 | over any event sequence that starts no round over an active one, an active round keeps leader, participants, prompt and configuration, and ends only by a GEN_DONE naming it or by a timeout |
| Round.Tenure | node/round.py:34-41 | the same over any stretch of events through which the round stays active |
| Round.TimeoutIsSilence | node/round.py:61-82 | with a nondecreasing clock, a check ends a round if and only if another node leads it and everything dispatched from that leader, the start included, is more than ROUND_LEADER_TIMEOUT old; a leader never times out its own round |
| Round.TimedOutIsSilence | node/generation.py:151-153 | whoever gives up the round its manager holds has had no word from its leader, another node, for longer than the limit |
| Round.StillHeld | node/round.py:34-82 | as long as no GEN_DONE names it and no check ends it, the round held at first is the round held later |
| Round.SilentSince | node/generation.py:151-153 | when a round is given up without a GEN_DONE that named it, it is that round's leader, another node, that was silent for longer than the limit |
| Round.MayLeadAnother | node/generation.py:195-196 | a concrete history in which, after a GEN_DONE, a node leads what the manager holds though it did not lead the round before |
| Round.MayGiveUpAnother | node/generation.py:151-153 | a concrete history in which a check fails although the leader of the first round was heard at that instant |
| Round.MayLeadNone | node/generation.py:195-196 | a concrete history in which a leader holds no round any more when its own is over |
| Round.DuplicateStart | node/round.py:34-49 | a repeated GEN_START is idle if and only if a round is active, and is adopted once the round has ended |
| Names.SortFacts | node/round.py:29 | sorted participants are the same names, in order |
| Names.SortUnique | node/round.py:45 | nodes told the same participants hold the same list |
| Names.Lexicographic | node/round.py:29 | the order is that of strings: a prefix first, else the smaller character at the first difference |
| Peers.PeerTable.AlivePeers | node/peers.py:36-49 | exactly the peers seen within the timeout and the node itself, in order |
| Peers.PeerTable.LeaderIsLeast | node/peers.py:51-53 | there is always a leader, the least name alive |
| Peers.PeerTable.MarkGone | node/peers.py:31-34 | another peer that said BYE is no longer alive, whatever the time |
| Peers.PeerTable.LeaderChanged | node/peers.py:58-66 | reports a leader exactly when it differs from the last call's |
| Peers.OneLeader | node/peers.py:51-56 | nodes with equal alive sets name the same leader, and exactly one of them takes itself to be it |
| Peers.SplitBrain | node/peers.py:42-56 | two leaders at once mean the later-named one does not see the other alive |
| Transport.Socket.PollRecv | node/transport.py:55-61 | one scripted arrival is consumed, or the poll's timeout passes |

## Left out

- ZeroMQ sockets, the relay, msgpack bytes and signal handling (node/transport.py, relay/relay.py, common/protocol.py:66-82): `Transport` replaces them by an arbitrary script of arrivals.
- The neural model, softmax, Gumbel noise and `temperature`, and float rounding: oracle values and exact reals, so float sums that differ with the order of summation are not modelled.
- Printing, `debug_topk`, `debug_distribution` and tokenizer decoding: output only.
- node/node.py, the heartbeat thread, `wait_for_round` and `close`: membership loops around the modelled calls.
- Transport.Socket.PollRecv: time passes in polls only; a script may let any amount pass in one, so slow forward passes show as slow polls.
- The batch dimension: a round uses one row, and so does `LocalStep`.
- Agreement between nodes after a barrier timed out or a round was abandoned: the code does not provide it. The per-node results hold under any barrier outcome.
- SwarmSystem.Step: barriers complete only when everybody's message is there, and round messages are not part of the soup; the runner reads its round once, at the start.
- Protocol.DecodeScores: keys with signs, blanks or underscores, which `int` accepts, count as unparsable; no participant writes one.
- Generation.GenerationRunner.RunRound: requires a block length within the generation length, at least one step per block and a mask id within the vocabulary; otherwise the source divides by zero, takes no step or raises at the first one. One vocabulary size stands for the distribution's columns and the model's embedding.
- Payloads with missing fields or negative positions or tokens: bodies are typed records over natural numbers.
- Consensus.SumScores: `math.exp` overflows on a score above about 709 and raises; `exp` is a total function here. No runner reports such a score: its scores are logarithms of probabilities.
- StepFacts.EosPriority: assumes confidences between 0 and 1, as softmax gives them; the demotion by 100 is strict only then.
- NodeFacts.SyncKeepsMirroring: assumes that commits merged in a sync lie in its block, which SwarmAgreement.CleanIsTidy proves for swarms of contained rounds (SwarmAgreement.FreezeCondition says which these are); nothing in the code checks a foreign position.
- Pace.RoundInPace: assumes that no step predicts the mask token and that nothing may be reopened between two syncs; otherwise masks can come back.
