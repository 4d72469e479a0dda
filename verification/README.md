# Machine-checked model of the card game's engine, search and ring

A Dafny 4.11 model of the algorithmic cores of a Go/C card-game system: the shared-memory request ring,
the engine's resumable operations, the shared Monte-Carlo search tree with its evaluation dispatcher,
dice payments, the buff ledger and the hook schedules, the DSL load order, the minimax player and the
turn machine. `dafny verify dfyconfig.toml` checks everything.

| files | what they model |
|---|---|
| ShmRing, ShmRingProof, ShmRingTheorems, ShmRingProgress | `shm_ring_push` / `shm_ring_pop` as a step system: one step per atomic access or store, any number of producers, one consumer, any capacity > 0 |
| Continuation, ManagedGame, DiceReroll | operations that stop for player input and are rebuilt by replaying recorded choices, against a run that keeps its stack |
| SearchTree, SearchTreeProof, SearchTreeTheorems, SearchTreeGrowth | concurrent rollouts over one node pool: virtual loss, expand-once, appended children, two-level backup, means read while others write |
| Selection | child-set growth, the legal mask, and the PUCT choice over a node that others grow |
| Dispatcher, SearchTermination | the sender/receiver pair that bridges rollouts to the evaluator, and the whole of Search with its workers and channels |
| DiceVectors, CostPayment, PaymentEnumeration, PaymentTheorems, PaymentExactness | `CanAfford` and the three phases of `EnumerateCostPayments`, phase 2 with its storage reuse as written, and when that reuse does harm |
| BuffBook, BuffLedger | buff instances against the counters they index, and `validateBuffState` |
| HookSchedule, RoundSchedule, EventSchedule | hook registration, the event and round schedules, and firing while hooks change the game |
| LoaderTopo, LoaderKahn | the broken-file analysis and Kahn's sort |
| ActionFold, GameStore, Minimax | the payment fold, the game state with its reused snapshot buffers, and the depth-limited minimax over pooled snapshots, including the rounds it starts by asking for legal actions |
| TurnMachine | whose turn it is from the choice of characters on, prepared skills, the end of the round, and `PayDice` |

Parameters of the model: hook bodies, rules of cards, network answers, PUCT scores, random choices and the
scorer are arbitrary functions or arbitrary values of each step; the statements hold for all of them.
Atomic operations are sequentially consistent. Scores are reals.

What is assumed of those parameters, and nothing more:

- an operation asks for finitely many inputs (`Rulebook.Terminating`), a chain of prepared skills is finite
  (`TurnMachine.Rules.Terminating`), a card asks for finitely many rerolls (`Minimax.Rules.Terminating`);
- the pause between rounds is a phase of its own and starting the round ends it (`Minimax.Rules.Phases`), and
  asking for the legal actions changes the game only by starting the round: the hooks that price an action or
  forbid it leave the state alone;
- a hook never gives an identity out twice, never turns one instance into another and never enables a removed
  hook again (`EventSchedule.Lawful`), and marks no modifier but its own as applied, except through events it
  fires (`EventSchedule.Honest`);
- a push's payload is shorter than 2^31 bytes (the code casts its length to `int32`; `LengthTestIff` shows that
  its test is right exactly then);
- leaf values lie in [-1, 1] where a mean value is bounded, and a pool holds 0 to 127 dice of a colour where
  int8 payments are enumerated.

## Where the code and its documentation differ

The model follows the code.

- `gicg_engine/cost_payment.go:81-93` documents three phases; lines 138-140 let phase 2 write its output over
  the prefixes it still has to read. The model has both readings. `DocumentedIsValid` shows the documented
  phases right for every cost, `OverwriteExample` the code wrong for one: it returns a payment that is one die
  too expensive and misses a right one. Whatever phase 2 overwrites, the returned payments are distinct, fit
  the pool, and are none exactly when the cost cannot be paid. Whether they are exactly the valid ones:
  - For every cost with a same-colour part, iff no overwritten read can be extended and paid for, and every
    valid payment extends a prefix that is read intact (`RightAlways`; `SoundIff` and `ReturnedIffCovered` are
    its two halves).
  - When phase 1 leaves no more prefixes than the first one has same-colour extensions, that is a condition on
    pool and cost (`RightIff`): there is no choice between omni and native dice, or no payment avoids
    native-first and the leftover dice do not pay for a second same-colour part of the extensions read.
  - For a same-colour part of one die: iff there is no choice or nothing is left over (`SameOneIff`).
  - With few prefixes, omni left for the whole same-colour part and that many dice left over: iff there is no
    choice (`AmpleOmniIff`).
  - With more prefixes than first extensions: only valid payments are returned iff a second same-colour part
    does not fit on top of native-first or too few dice are left over for it; where no payment avoids
    native-first, that also decides whether the code is right (`ManyIff`).
  - Right for any number of prefixes: no same-colour part, no choice, a single extension, or no payment avoids
    native-first and a second same-colour part does not fit (`SafeIsRight`). Wrong for any number of prefixes: a
    choice, and a same-colour part twice as large would still fit (`DoublesOverpays`).
- `gicg_actor/dmc/greedy_player.go:85-87` says that `scoreBestResponse` leaves the game as it found it and line
  164 that `SelectAction` does not change it, and lines 82-89 that the score is a minimax value. Between two
  rounds neither holds, because `GetLegalActions` starts the next round (`gicg_engine/action.go:74-77`).
  - The game comes back except that a look-ahead entered in the pause, with depth and budget left, leaves the
    next round started (`Left`, the contract of `ScoreBestResponse`), as does `SelectAction` (`Opened`).
  - The player to act is read (line 120) before the round starts (line 124). In the pause that is the player
    who declared last, and the round starts with the other one (`PauseNamesTheOther`), so at such a node the
    code takes the minimum for the maximum. `MisreadExample` is a position where it then prefers the worse
    move. The score is the minimax value if no node with moves is misread so (`AlignedIsMinimax`); at a misread
    node with true scores below it, iff all its moves are worth the same (`MisreadIff`).
- `gicg_mcts/node.go:62-73` computes the mean of a node from three loads. At one moment it lies in [-1, 1]
  (`MeanInRange`); loaded while others write it may not (`TornMeanExample`), and `TornMeanBound` says how far
  out it can be.
- `gicg_mcts/backup.go:22-24` speaks of undoing virtual loss when a rollout is abandoned; no error path of
  `search.go` or `rollout.go` does so. The model keeps the abandoned paths, and their virtual loss, until the
  search reports its failure.
- `gicg_mcts/rollout_helpers.go:102-113` promises that no action is appended twice. The loop does not extend
  its own set, so ids that repeat among the legal ones are appended repeatedly; `RepeatedIdIsAppendedTwice` is
  such a case, `AddKeepsDistinct` says when ids stay distinct, and `SlotStays` and `BestIsUnique` why selection
  is unaffected.
- `gicg_engine/round.go:60-62` enters the action phase even when a round-start hook has just ended the game
  (`GameOverAtRoundStart`).

## Model

| member | source | states |
|---|---|---|
| RingProof.StepInv | gicg_actor/shm/shm_unix.c:158-244 | Every atomic step of any producer or the consumer keeps the seven-part invariant (accounting, slot ownership, window, reader, history, identities) |
| RingProof.RunInv | gicg_actor/shm/shm_unix.c:158-244 | Every state of every interleaving satisfies the invariant |
| RingProof.ClaimedSlotIsFree | gicg_actor/shm/shm_unix.c:175-181 | A successful tail CAS claims a slot that is EMPTY and outside the window of claimed positions |
| RingTheorems.CountBounds | gicg_actor/shm/shm_unix.c:166-182 | 0 <= count <= capacity at every moment, and count is reservations + claimed positions + a pop not yet counted down |
| RingTheorems.WriterOwnsSlot | gicg_actor/shm/shm_unix.c:183-193 | While a producer writes, its slot is not FULL, nobody else writes or reads it, and its stores touch no other slot |
| RingTheorems.ClaimOwnsSlot | gicg_actor/shm/shm_unix.c:143-182 | The slot a producer claims is EMPTY and neither written nor read by anyone |
| RingTheorems.StepRefinesQueue | gicg_actor/shm/shm_unix.c:158-244 | Each step is an append to, or a removal of the first element from, a queue of at most `capacity` calls, or leaves it alone |
| RingTheorems.Fifo | gicg_actor/shm/shm_unix.c:209-244 | The k-th completed pop returned the client, request and payload of the k-th claimed call, whole if the buffer is large enough |
| RingTheorems.HistoryGrows | gicg_actor/shm/shm_unix.c:158-244 | The claim order and the returned sequence only grow at the end; success and refusal are final |
| RingTheorems.ExactlyOnce | gicg_actor/shm/shm_unix.c:158-194 | An accepted push occupies exactly one position, a refused one none, and no call is both |
| RingTheorems.RefusedOnlyWhenFull | gicg_actor/shm/shm_unix.c:164-173 | A push is refused only for an oversized payload or at an instant with count = capacity |
| RingTheorems.HeadNeverWedged | gicg_actor/shm/shm_unix.c:129-156 | While a claimed position waits, the head slot holds its message FULL or its producer is still writing it: the wrap-overwrite failure cannot occur |
| RingTheorems.CopyFinishes | gicg_actor/shm/shm_unix.c:227-243 | A pop that has started to copy finishes by its own steps with the oldest message |
| RingTheorems.PopCompletes | gicg_actor/shm/shm_unix.c:209-244 | A pop that finds the head FULL returns the oldest message by its own steps |
| RingTheorems.EmptyPop | gicg_actor/shm/shm_unix.c:214-215 | A pop that gives up at the count found no claimed position and no reservation |
| RingTheorems.TransientPop | gicg_actor/shm/shm_unix.c:221-225 | A pop that gives up at the head slot found nothing claimed, or its oldest claim still being written |
| RingTheorems.LostCountMeansProgress | gicg_actor/shm/shm_unix.c:169-173 | A swap of the count is lost only because another push got its reservation or a pop completed since the load |
| RingTheorems.LostTailMeansProgress | gicg_actor/shm/shm_unix.c:177-181 | A swap of the tail is lost only because another push claimed a position since the load |
| RingTheorems.LengthTestIff | gicg_actor/shm/shm_unix.c:162-164 | The signed test on the payload length is the intended one iff the length is below 2^31 |
| RingProgress.PushReturnsDecided | gicg_actor/shm/shm_unix.c:158-194 | In every run, a producer that is back from a push has had its call accepted or refused |
| RingProgress.NoCallIsLost | gicg_actor/shm/shm_unix.c:158-194 | In every state, every call made so far is accepted, refused, or in the hands of a producer |
| RingProgress.RoomIsUsed | gicg_actor/shm/shm_unix.c:166-193 | A push that finds room and runs alone is accepted: the claims grow by exactly its call, its message lies whole in the ring, nothing else changes |
| RingProgress.PushCompletes | gicg_actor/shm/shm_unix.c:158-194 | In every run, a fitting push called while there is room, then running alone, succeeds in that way; called while the ring is full it is refused at its first step |
| RingProgress.RoundTrip | gicg_actor/shm/shm_unix.c:158-244 | A message pushed into a ring that has been emptied is what the next pop returns |
| Continuation.ReplayIsKept | gicg_engine/continuation.go:98-193 | Replaying an operation from its root with the recorded (state, choice) list reaches the stop of the run that kept its stack and consumes every choice |
| Continuation.AdvanceFollowsCode | gicg_engine/continuation.go:72-96 | The kept run does what the operation's code says, effect by effect, and stops exactly where the code first halts or asks |
| ManagedGame.Game.RequestInput | gicg_engine/continuation.go:162-193 | Suspends without a recorded choice, otherwise installs that choice's state and hands over its action, whose kind, player, colour and count fit the request, or fails on a changed identity |
| ManagedGame.Game.Invoke | gicg_engine/continuation.go:72-96 | Running an operation's code step by step does what the replay of its recorded choices does |
| ManagedGame.Game.RunExecution | gicg_engine/continuation.go:117-141 | Shows exactly the kept stack's state, request and log; the "did not reach its recorded input boundary" failure is dead code |
| ManagedGame.Game.RunBoundary | gicg_engine/continuation.go:98-115 | Starting an operation shows what running it with a kept stack shows; while one is suspended nothing changes |
| ManagedGame.Game.Rewind | gicg_engine/continuation.go:60-70 | Cuts the log back only if it is the log of the operation, and fails exactly when that prefix is gone |
| ManagedGame.Game.ResumeTarget | gicg_engine/continuation.go:143-160 | A reroll index is taken iff it is at most the dice of that colour (0 at the confirmation) and answers with that count; a switch index iff it is below the number of replacements and answers with that one. The game then shows what the kept stack shows when it continues with that answer in the current state, the log included; any other index changes nothing |
| ManagedGame.Game.Alter | gicg_engine/continuation.go:5-10 | Changing hidden state while an operation waits keeps the waiting game consistent |
| ManagedGame.Game.Restore | gicg_engine/game_snap.go:133-171 | Any earlier snapshot of a waiting game can be restored and resumed again |
| ManagedGame.ExtendRecorded | gicg_engine/continuation.go:147-156 | Recording a legal answer extends the kept stack by exactly that answer |
| ManagedGame.AnswerExtends | gicg_engine/continuation.go:60-70 | Continuing only adds log records after the old ones |
| DiceReroll.Table.RequestDiceInput | gicg_engine/dice_selection.go:75-93 | Installs the recorded state on an accepted answer and changes nothing otherwise |
| DiceReroll.Table.Throw | gicg_engine/dice_selection.go:60-71 | The selected dice leave and as many come back, each of the colour drawn by a new draw from the generator the draw before left, whose last state is kept; the number of dice stays, no colour goes negative, and it fails exactly when the selection exceeds the dice |
| DiceReroll.TossDraws | gicg_engine/dice_selection.go:69-71 | There is a chain of generators, one draw apart, such that each colour gains exactly the number of draws that gave it |
| DiceReroll.Table.AskColors | gicg_engine/dice_selection.go:45-55 | One request per non-empty colour, in order, whose answers make up the selection; no dice or random state changes but by installing recorded states; if it stops, it has asked an initial part of these |
| DiceReroll.Table.Roll | gicg_engine/dice_selection.go:44-71 | One pass asks every non-empty colour of the dice it started with once and then for confirmation of the answers, and leads to the state that confirmation's roll gives; or it waits in the state of its last request, or fails on an answer that does not fit |
| DiceReroll.Table.ChooseReroll | gicg_engine/dice_selection.go:39-73 | Fails without a request on a bad player, no rolls or outside an operation. Otherwise, for all three outcomes: the requests are complete rolls, each from exactly the state the last one left, followed (unless done) by an initial part of one more; suspended, dice and generator are those of the last request |
| DiceReroll.Table.UnalteredIsHarmless | gicg_engine/dice_selection.go:36-73 | With dice unaltered while waiting and fitting answers it cannot fail, and finishing keeps the number of dice |
| DiceReroll.ChainKeepsTotal | gicg_engine/dice_selection.go:58-71 | Any number of consecutive rolls keeps the number of dice |
| SearchTreeProof.StepInv | gicg_mcts/rollout.go:92-292 | Every step of any rollout, the reads of the error flag among them, keeps the tree, the root paths, and each node's counters equal to what the rollouts have put there |
| SearchTreeProof.RunInv | gicg_mcts/search.go:226-274 | Every state of every interleaving satisfies the invariant |
| SearchTreeProof.LinkTree | gicg_mcts/node.go:125-173 | Linking new nodes under a node keeps child lists duplicate-free, complete and pointing away from the root |
| SearchTreeGrowth.ExpandInstalls | gicg_mcts/node.go:125-137 | The first expansion of a leaf expands it with exactly the new nodes as children, in order; a later one leaves it as it is; either way the rollout backs up the given value |
| SearchTreeGrowth.AppendAdds | gicg_mcts/node.go:139-173 | Appending puts exactly the new nodes, in order, behind the children that are there |
| SearchTreeGrowth.StructureGrows | gicg_mcts/node.go:125-173 | Over any run no node is unexpanded or moved, and child lists only grow at the end |
| SearchTreeGrowth.StaysExpanded | gicg_mcts/rollout.go:284 | After the first expansion at a node it is expanded for good |
| SearchTreeGrowth.ChooseDescends | gicg_mcts/rollout.go:196-220 | A descent goes on at the child in the chosen slot, which alone gets the virtual loss |
| SearchTreeGrowth.BackupCompletes | gicg_mcts/backup.go:13-20 | From any state with a leaf value there, the worker's own steps, three a node, add one visit and the value to exactly the nodes of its path, take back their virtual loss, and record the rollout |
| SearchTreeGrowth.ValuesConserved | gicg_mcts/rollout.go:284-287 | At every moment the leaf values so far are those of the rollouts backed up or being backed up |
| SearchTreeGrowth.WeightIsValues | gicg_mcts/backup.go:13-20 | On success a node's weight is the sum of the values of exactly the rollouts through it, and the root's the sum of all leaf values |
| SearchTreeProof.PathGrows | gicg_mcts/rollout.go:94-119 | Node numbers grow along a descent, so a rollout never counts a node twice |
| SearchTreeTheorems.CountersAreRollouts | gicg_mcts/backup.go:13-39 | At every moment NVirtual is the number of in-flight rollouts through a node (plus abandoned ones) and N the number backed up through it |
| SearchTreeTheorems.SuccessBalances | gicg_mcts/search.go:267-293 | On success every NVirtual is 0, root N = NRollouts, and N of a node = rollouts ending there + sum of its children's N |
| SearchTreeTheorems.ReturnedVisits | gicg_mcts/search.go:280-283 | The returned counts are the rollouts through the root's first children; with those through children appended later and those ending at the root they make up NRollouts |
| SearchTreeTheorems.PathConserved | gicg_mcts/rollout.go:196-219 | A rollout through a node ends there or continues to exactly one of its children |
| SearchTreeTheorems.MeanInRange | gicg_mcts/node.go:52-73 | For leaf values in [-1, 1], the accumulated weight is at most N * WScale in size at every moment, so the mean stays in [-1, 1] |
| SearchTreeTheorems.TornMeanBound | gicg_mcts/node.go:64-73 | A mean whose counters are loaded at three moments is at most the visits at the last over the loaded total; it is in range if no visit was added in between |
| SearchTreeTheorems.TornMeanExample | gicg_mcts/node.go:64-73 | A run of two rollouts of value 1 in which the mean so loaded is 2 |
| Selection.Less | gicg_mcts/action_id.go:35-57 | Is lexicographic comparison of the 13-field tuples |
| Selection.StrictTotalOrder | gicg_mcts/action_id.go:35-63 | Less is irreflexive, transitive, and total on distinct ids |
| Selection.BestIsUnique | gicg_mcts/puct.go:69-75 | There is only one best slot by (score, then smallest id) among first occurrences |
| Selection.SlotStays | gicg_mcts/node.go:139-173 | Growth never moves an action to another child, even when ids repeat |
| Selection.AddKeepsDistinct | gicg_mcts/rollout_helpers.go:118-135 | Adding legal ids keeps a node's ids distinct iff the new ones do not repeat among themselves |
| Selection.MissingPicked | gicg_mcts/rollout_helpers.go:118-135 | What is appended are the legal ids at exactly the places whose id the node lacks, in order |
| Selection.RepeatedIdIsAppendedTwice | gicg_mcts/rollout_helpers.go:126-135 | An unknown id that is legal twice is appended twice |
| Selection.Node.HasNewActions | gicg_mcts/rollout_helpers.go:43-59 | True iff some legal id is missing |
| Selection.Node.AddNewActionsUniform | gicg_mcts/rollout_helpers.go:114-141 | Appends exactly the missing ids, each with a fresh child; afterwards every legal id is present and children stay aligned |
| Selection.Node.SelectChild | gicg_mcts/puct.go:53-82 | No slot beats the chosen one by score, then by id; none chosen iff the mask is empty |
| Selection.Node.LegalMask | gicg_mcts/rollout_helpers.go:68-76 | Marks exactly the first occurrence of each legal id |
| Selection.Node.SelectAndMap | gicg_mcts/rollout_helpers.go:61-100 | Chooses the unique best legal slot, maps it back to its first legal index, and counts availability once per legal slot |
| Selection.Node.Descend | gicg_mcts/rollout.go:188-206 | Whatever others append meanwhile, selection neither panics nor errs and steps a legal action |
| Dispatcher.StepInv | gicg_mcts/search.go:167-224 | Every channel, flag and close step keeps the pipeline order and the job accounting |
| Dispatcher.AnswersInOrder | gicg_mcts/search.go:181-223 | The k-th answer is written to the k-th successfully sent job, with or without errors |
| Dispatcher.WakesWithAnswer | gicg_mcts/search.go:257-262 | A job is closed at most once, and a waiter that sees no error finds its answer |
| Dispatcher.DrainedClosesAll | gicg_mcts/search.go:179-224 | When both stages have drained, every queued job has been closed exactly once |
| Dispatcher.CleanRunAnswersAll | gicg_mcts/search.go:179-224 | Without errors, draining has answered every job |
| Dispatcher.NeverStuck | gicg_mcts/search.go:175-224 | While a queued job is unclosed, one of the two stages can step |
| Dispatcher.WorkShrinks | gicg_mcts/search.go:175-224 | Each dispatcher step reduces the work left, so draining terminates |
| SearchTermination.SomeoneMoves | gicg_mcts/search.go:160-275 | Unless Search is returning, one of its goroutines can move: no interleaving of workers, channels and dispatcher deadlocks |
| SearchTermination.RunIsFinite | gicg_mcts/search.go:160-275 | However they are scheduled, the goroutines make at most as many moves as there was work to begin with |
| SearchTermination.SearchReturns | gicg_mcts/search.go:160-275 | Every run so far can be completed, and then all rollouts have been handed out and drawn and every job closed exactly once |
| SearchTermination.EveryRolloutEnds | gicg_mcts/search.go:241-275 | A search that returns without an error has brought each of its rollouts to its end |
| CostPayment.CanAfford | gicg_engine/cost_payment.go:12-64 | True iff some valid payment exists |
| CostPayment.GreedyBest | gicg_engine/cost_payment.go:9-30 | Native-first leaves the most native-plus-omni dice for every colour at once |
| CostPayment.AffordableHasPayment | gicg_engine/cost_payment.go:31-64 | The greedy's test yields a payment |
| CostPayment.PaymentIsAffordable | gicg_engine/cost_payment.go:31-64 | Any payment makes the greedy's test succeed |
| CostPayment.ValidTotal | gicg_engine/cost_payment.go:81-90 | Every valid payment spends exactly the cost's total |
| PaymentEnumeration.Draw | gicg_engine/cost_payment.go:196-215 | The recursive closure appends exactly the completions of its prefix, each once |
| PaymentEnumeration.EnumerateMultiset | gicg_engine/cost_payment.go:191-218 | Exactly the multisets of n dice the pool contains, each once |
| PaymentEnumeration.SamePayments | gicg_engine/cost_payment.go:138-162 | Phase 2 over the array it overwrites, for any spare capacity, yields the list that reads overwritten prefixes |
| PaymentTheorems.PrefixesMember | gicg_engine/cost_payment.go:104-132 | Phase 1 lists exactly the native/omni payments of the element slots that fit the pool |
| PaymentTheorems.PrefixesDistinct | gicg_engine/cost_payment.go:104-132 | Phase 1 lists none of them twice |
| PaymentTheorems.SinglePrefix | gicg_engine/cost_payment.go:104-141 | Phase 1 leaves at most one prefix iff omni and native dice cannot be exchanged |
| PaymentTheorems.DocumentedIsValid | gicg_engine/cost_payment.go:81-93 | The documented three phases give exactly the valid payments, for every cost |
| PaymentTheorems.ReturnedIsValid | gicg_engine/cost_payment.go:138-186 | The code's payments are exactly the valid ones when there is no same-colour part or at most one prefix |
| PaymentTheorems.TightIsExact | gicg_engine/cost_payment.go:138-186 | The code's payments are exactly the valid ones when the cost takes the whole pool, whatever phase 2 overwrites |
| PaymentTheorems.LittleSlackIsSound | gicg_engine/cost_payment.go:138-186 | When fewer dice than the same-colour part would be left over, every returned payment is valid |
| PaymentTheorems.AffordableReturns | gicg_engine/cost_payment.go:134-186 | Whatever phase 2 overwrites, an affordable cost gets a payment |
| PaymentTheorems.OverwriteExample | gicg_engine/cost_payment.go:138-160 | One fire and two omni dice, cost one fire and one same-colour die: the code returns three dice and misses the two omni |
| PaymentTheorems.Complete | gicg_engine/cost_payment.go:164-185 | Phase 3 gives every completion of every prefix once, and each fits the pool |
| PaymentExactness.SoundIff | gicg_engine/cost_payment.go:138-162 | Every returned payment is valid iff no overwritten read has an extension the pool can pay for |
| PaymentExactness.ReturnedIffCovered | gicg_engine/cost_payment.go:138-162 | A valid payment is returned iff it extends a prefix that is read intact |
| PaymentExactness.RightAlways | gicg_engine/cost_payment.go:138-186 | The code is right iff both hold, for every cost with a same-colour part |
| PaymentExactness.UnavoidableIsComplete | gicg_engine/cost_payment.go:138-186 | Where no payment can avoid native-first, no valid payment is missed, whatever is overwritten |
| PaymentExactness.AvoidableIsMissed | gicg_engine/cost_payment.go:138-186 | Where one can, and prefixes are few, a valid payment is missed |
| PaymentExactness.RightIff | gicg_engine/cost_payment.go:138-186 | With few prefixes the code is right iff a condition on pool and cost holds |
| PaymentExactness.SameOneIff | gicg_engine/cost_payment.go:138-186 | For a same-colour part of one die: right iff there is no choice or nothing is left over |
| PaymentExactness.AmpleOmniIff | gicg_engine/cost_payment.go:138-186 | With omni and dice left for the same-colour part and few prefixes: right iff there is no choice |
| PaymentExactness.OneExtensionIsRight | gicg_engine/cost_payment.go:138-186 | Right when the first prefix has a single extension, as then nothing is overwritten before it is read |
| PaymentExactness.ManyIff | gicg_engine/cost_payment.go:138-186 | With more prefixes than first extensions: sound iff no second same-colour part fits or can be paid; the same decides exactness where native-first is unavoidable |
| PaymentExactness.SafeIsRight | gicg_engine/cost_payment.go:138-186 | The conditions on pool and cost that make the code right for any number of prefixes |
| PaymentExactness.DoublesOverpays | gicg_engine/cost_payment.go:138-186 | With a choice and room for a second same-colour part the code returns a payment that costs too much |
| PaymentExactness.EnumerateCostPayments | gicg_engine/cost_payment.go:94-186 | Distinct payments within the pool, none iff unaffordable; exactly the valid ones, or not, as the rows above decide |
| BuffBook.StepGood | gicg_engine/buffs.go:31-84 | Every ledger operation keeps ids ordered, one instance per active aggregate definition, and independent instances charged |
| BuffBook.RemoveGoodIff | gicg_engine/buff_state.go:5-12 | Removing an instance keeps the ledger good iff it is not an aggregate one |
| BuffBook.RunGood | gicg_engine/buff_state.go:5-96 | After any sequence of operations under any captured frames the ledger is good |
| BuffBook.StepFollows | gicg_engine/buffs.go:22-50 | No operation gives an old identity to another instance or definition |
| BuffLedger.ValidateBuffState | gicg_engine/buffs.go:100-135 | Accepts exactly the states its rules describe, both directions |
| BuffLedger.GoodAccepted | gicg_engine/buffs.go:100-135 | Every good ledger outside a spawn is accepted |
| BuffLedger.RunAccepted | gicg_engine/buffs.go:100-135 | After any run, at every operation boundary, the state is accepted and ids increase up to BuffSerial |
| BuffLedger.NeverSubstituted | gicg_engine/buff_schedule.go:5-6 | An instance that has gone never returns and none changes its definition |
| BuffLedger.SpawnCharges | gicg_engine/buff_state.go:16-37 | A spawn no hook interferes with adds exactly one instance with the requested charges and duration |
| BuffLedger.Ledger.EnableCounterOrder | gicg_engine/buffs.go:52-61 | Binds a counter to a new definition, with an instance iff the counter is away from its initial value |
| BuffLedger.Ledger.UpdateBuffInstance | gicg_engine/buffs.go:63-84 | The instance stays, goes, or is replaced at the end of the list, as the definition asks |
| BuffLedger.Ledger.ApplyWrite | gicg_engine/game_counter.go:52-68 | Set leaves the value, Add and Sub change it by exactly the amount, or leave the bound that is crossed; the aggregate instance goes, stays or is replaced accordingly; bound and clearing writes change instances only; panics exactly on an unbound write to an independent buff |
| BuffLedger.Ledger.WriteBound | gicg_engine/buff_state.go:65-86 | Sets, raises or lowers the charges of the bound instance by exactly the amount, up to the maximum, and removes it iff that leaves none |
| BuffLedger.WriteLaw | gicg_engine/game_counter.go:52-68 | The same of the write as a function of the ledger, for every event frame |
| BuffLedger.AddThenSub | gicg_engine/game_counter.go:57-66 | Adding and then subtracting what fits between the bounds gives every counter its old value back |
| BuffLedger.CreateLaw | gicg_engine/game_counter.go:10-23 | A new counter has its default within its bounds, as value and initial value, and no buff |
| BuffLedger.IndependentLaw | gicg_engine/interp/builtins_buff.go:47-51 | A definition becomes independent iff its counter starts at 0 and stands there |
| BuffLedger.Ledger.ClearInstances | gicg_engine/buff_state.go:90-95 | Removes exactly the definition's instances |
| BuffLedger.Ledger.RemoveBuff | gicg_engine/buff_state.go:5-12 | Removes exactly the instance with the identity |
| BuffLedger.Ledger.BeginSpawn | gicg_engine/buff_state.go:16-30 | Accepts exactly an independent definition, 1 to the maximum charges and a duration of -1 or at least 1; then appends an empty instance with that duration and a new identity |
| BuffLedger.Ledger.EndSpawn | gicg_engine/buff_state.go:33-36 | Drops the instance iff it never got charges |
| BuffLedger.Ledger.SetBuffRemaining | gicg_engine/buff_state.go:124-138 | Sets or ends one independent instance; errors exactly on aggregate instances or durations below -1 |
| BuffLedger.Ledger.SetBuffProgress | gicg_engine/buff_state.go:156-163 | Sets one independent instance's progress or errors, with the int32 bound |
| HookSchedule.Registry.Register | gicg_engine/hook.go:204-233 | Each list holds exactly the enabled hooks of its topic, by higher priority, then earlier registration |
| HookSchedule.Registry.Remove | gicg_engine/hook.go:235-265 | Disables and unlists exactly that hook |
| HookSchedule.StableSort | gicg_engine/buff_schedule.go:30-35 | Sorts by key, ties in arrival order, nothing lost |
| RoundSchedule.ReorderBand | gicg_engine/buff_round.go:55-75 | In one priority band only summon slots change, and they hold the same summons by ending player, then creation |
| RoundSchedule.ScheduleRound | gicg_engine/buff_round.go:45-76 | A permutation with non-increasing priority whose other calls keep their stable positions, and whose summons go by player, then creation |
| RoundSchedule.ScheduleIsLaw | gicg_engine/buff_round.go:45-76 | Priorities never increase; among equals summons go by their player's place in the order, then by creation, other calls by creation, then as collected |
| RoundSchedule.FifoUnique | gicg_engine/buff_round.go:45-50 | The stable order the schedule is measured against is unique |
| EventSchedule.ScheduleRoundHooks | gicg_engine/buff_round.go:14-77 | That order, of exactly these calls: for an ordered hook one for each instance of its counters whose owner is the hook's, or the opponent for a hook on the other side; for any other hook one for its player, or for every player in order |
| EventSchedule.ScheduleHooks | gicg_engine/buff_schedule.go:13-37 | Exactly one call for each ordered hook and instance of its counter that has charges or is aggregate, and one for any other hook; by higher priority, then the older instance, then as collected |
| EventSchedule.EventCallsHold | gicg_engine/buff_schedule.go:13-29 | Any permutation of what is collected for an event has those calls and no pair twice |
| EventSchedule.RoundCallsHold | gicg_engine/buff_round.go:16-44 | The same for a round stage |
| EventSchedule.CollectOnce | gicg_engine/buff_round.go:16-44 | No (hook, instance) or (hook, player) pair is collected twice |
| EventSchedule.Firing.InvokeBuffHook | gicg_engine/buff_schedule.go:39-59 | Runs the body only for an enabled hook and a live instance, under that hook, instance, actor and a frame bound to the instance and its counter, and restores context and frame |
| EventSchedule.Firing.MarkApplied | gicg_engine/buff_schedule.go:73-82 | Adds the hook id and the application's key |
| EventSchedule.AppliedByItself | gicg_engine/buff_schedule.go:61-82 | However deeply events nest, an application key is in the shared set only if that very application's hook has run |
| EventSchedule.AppearsDuring | gicg_engine/buff_schedule.go:39-82 | A key that appears during a call is the call's own, or came from an event its body fired |
| EventSchedule.NestedMarks | gicg_engine/action_execute.go:24-63 | The latter happens |
| EventSchedule.Firing.FireEventHooks | gicg_engine/game_counter.go:194-204 | Schedules the event; a call whose hook is disabled or whose instance is gone does nothing, any other has exactly its body's effect under its own context and frame, in order, until the game or the value ends; each that fires is captured, once, at event entry, and applied modifiers stay explained |
| EventSchedule.Firing.FirePerPlayerHooks | gicg_engine/buff_round.go:79-99 | The same for a round stage, each body run as its own actor in a fresh frame pushed for it; actor and stack are put back |
| EventSchedule.OnlyCapturedFire | gicg_engine/buff_schedule.go:5-41 | Whatever hooks spawn, remove or replace, each (hook, instance) pair fires at most once and only for the instance captured at event entry, with the same counter |
| EventSchedule.KeysDiffer | gicg_engine/buff_schedule.go:61-71 | Application keys of distinct applications differ, also from plain hook ids, and fit 64 bits |
| LoaderTopo.ProviderMap | gicg_engine/interp/loader_topo.go:77-85 | Maps each provided symbol to the last file that declares it, or to the engine |
| LoaderKahn.ProviderMapUnique | gicg_engine/interp/loader_topo.go:77-85 | The provider map is determined by the files and the engine's symbols |
| LoaderTopo.Inspect | gicg_engine/interp/loader_topo.go:103-124 | One look marks a file iff a dependency is missing or comes from a marked file, with true reasons |
| LoaderTopo.FindBroken | gicg_engine/interp/loader_topo.go:97-125 | Terminates and marks exactly the files with a provider chain to an unprovided symbol |
| LoaderTopo.CleanLoads | gicg_engine/interp/loader_topo.go:101-125 | When every unmarked file is clean, no chain to a missing symbol starts at one |
| LoaderKahn.BuildGraph | gicg_engine/interp/loader_topo.go:138-150 | In-degrees and edge lists of the provider graph without self-edges |
| LoaderKahn.Drain | gicg_engine/interp/loader_topo.go:152-169 | The queue is ordered after its needs and holds exactly the files that got free |
| LoaderKahn.OrderedAcyclic | gicg_engine/interp/loader_topo.go:160-169 | From a file in an ordered list no cycle can be reached |
| LoaderKahn.StuckReaches | gicg_engine/interp/loader_topo.go:171-178 | A file that never gets free reaches a cycle |
| LoaderKahn.TopoSort | gicg_engine/interp/loader_topo.go:77-182 | Succeeds iff the files can be ordered so that each finds its symbols declared before it, and then gives such an order of all files; otherwise refuses iff some file is unloadable, else iff some file is on or behind a cycle, naming exactly those |
| LoaderKahn.OrderLoads | gicg_engine/interp/loader_topo.go:152-182 | A complete listing after providers is a load order |
| LoaderKahn.LoadOrderOrders | gicg_engine/interp/loader_topo.go:152-182 | Every load order lists files after their providers, so none exists when files are refused |
| ActionFold.SortInts | gicg_actor/dmc/dice_greedy.go:231-241 | In place: ascending, and a permutation |
| ActionFold.BestOf | gicg_actor/dmc/dice_greedy.go:188-220 | The first of the cheapest in a group, tuning by hand index |
| ActionFold.FilterLogicalActions | gicg_actor/dmc/dice_greedy.go:150-228 | Ascending, exactly one index per identity: the first cheapest |
| ActionFold.Represented | gicg_actor/dmc/dice_greedy.go:141-149 | Every legal action is represented by exactly one folded action: none of its identity is cheaper, and of those as cheap it is the first, or the tuning of lowest hand index |
| ActionFold.FoldIs | gicg_actor/dmc/dice_greedy.go:150-228 | The fold is unique |
| GameStore.CopyInto | gicg_engine/game_snap.go:114-121 | Copying into a reused buffer gives the source's contents and leaves the source alone |
| GameStore.Store.Assign | gicg_engine/game_snap.go:103-170 | A store takes over another's value into its own buffers and shares none with it |
| Minimax.Player.SnapshotPooled | gicg_engine/game_snap.go:103-129 | The pool hands out a snapshot of the current value that shares no buffer with the game or the pool |
| Minimax.Player.GetLegalActions | gicg_engine/action.go:64-121 | Lists the actions of the state it leaves behind: the next round's if it was asked in the pause |
| Minimax.Player.TryCandidate | gicg_actor/dmc/greedy_player.go:131-146 | Stepping, scoring and restoring leaves the game as it was, through nested pooled snapshots |
| Minimax.Player.ScoreBestResponse | gicg_actor/dmc/greedy_player.go:96-161 | The next round is started iff the look-ahead is entered in the pause with depth and budget left, and otherwise the game comes back, whatever the budget; within the budget the score is the minimax value for the mover read before the round starts |
| Minimax.Player.SelectAction | gicg_actor/dmc/greedy_player.go:166-226 | Picks from the fold one of the moves of highest score, of highest minimax value if no node below is misread; changes the game only by starting the round |
| Minimax.MinimaxLawHolds | gicg_actor/dmc/greedy_player.go:96-161 | The value: a pending dice choice is answered first; an ended game, no depth or no moves give the score; otherwise some folded move reaches it and none is better for the player who chooses |
| Minimax.ExpansionsAreLines | gicg_actor/dmc/greedy_player.go:136-137 | The budget spent is the number of lines of play of the tree, each stepped once |
| Minimax.LinesAre | gicg_actor/dmc/greedy_player.go:124-146 | Those lines are the sequences of folded moves within the depth |
| Minimax.NeedBound | gicg_actor/dmc/greedy_player.go:112-118 | A budget of one more than that is always enough |
| Minimax.AlignedIsMinimax | gicg_actor/dmc/greedy_player.go:120-160 | Where no node with moves is misread the score is the minimax value |
| Minimax.MisreadIff | gicg_actor/dmc/greedy_player.go:120-160 | At a misread node with true scores below, the score is the minimax value iff all moves are worth the same |
| Minimax.MisreadExample | gicg_actor/dmc/greedy_player.go:120-124 | A pause scored 0 instead of 1, two plies above it the worse move preferred, and the next round left started |
| Minimax.BestMovePlaysValue | gicg_actor/dmc/greedy_player.go:163-226 | A best move's value is the minimax value of the position |
| TurnMachine.Game.PayDice | gicg_engine/action_execute_other.go:163-187 | Succeeds iff no paid colour exceeds the pool; then debits and records exactly; otherwise what was debited before the panic |
| TurnMachine.Game.PayListed | gicg_engine/action_enum.go:37-46 | Any payment EnumerateCostPayments lists is paid without failing, leaves no colour negative, and keeps pool plus paid, colour by colour |
| TurnMachine.ResolvedKeeps | gicg_engine/action_preparing.go:10-39 | However many prepared skills a turn flip sets off, the turn ends with a player who has not declared, and stays put after a declaration |
| TurnMachine.Game.FlipTurn | gicg_engine/action_execute_other.go:93-103 | The turn goes to the opponent iff they have not declared; each prepared skill that waits for the player who gets it is taken out and used, and hands the turn over once more under the same condition |
| TurnMachine.FlipLawHolds | gicg_engine/action_execute_other.go:93-103 | The same of the recursion, for any number of prepared skills |
| TurnMachine.Game.FinishAction | gicg_engine/action_execute_other.go:61-81 | Hands the turn on iff the hooks leave it a battle action; the end phase is never entered from here |
| TurnMachine.Game.ExecuteSkill | gicg_engine/action_execute.go:7-81 | Fails iff the pool cannot pay; otherwise pays, fires the hooks of preparation, action and turn flip in order, flips the turn iff the last leave it a battle action, and keeps the turn rules |
| TurnMachine.Game.ExecuteSwitch | gicg_engine/action_execute_other.go:11-84 | A forced switch fires its hooks and changes neither turn nor payments; a voluntary one pays and runs like a skill |
| TurnMachine.ActionLawHolds | gicg_engine/action_execute.go:7-81 | A paid skill, card or switch fires those hooks, one event after the other, and flips the turn iff the game goes on and the hooks leave it a battle action |
| TurnMachine.TurnAfterAction | gicg_engine/action_execute_other.go:61-103 | After a battle action with no prepared skill waiting the turn has gone over iff the opponent has not declared; after a fast one it is where it was |
| TurnMachine.PaidLaw | gicg_engine/action_execute_other.go:163-187 | Paying moves dice of the player to move from pool to record, colour by colour, and changes nothing else |
| TurnMachine.Game.ExecuteTune | gicg_engine/action_execute_other.go:201-275 | Moves one die of the pool from one colour to another and fires its hooks; without such a die nothing happens |
| TurnMachine.Game.ExecuteSelectActive | gicg_engine/action_execute_other.go:130-148 | The choice is recorded; the opponent chooses next, or player 0 starts the first round |
| TurnMachine.Game.ExecuteEndTurn | gicg_engine/action_execute_other.go:106-127 | The first declaration is recorded as first and hands the turn on; the second runs the end phase with both declared |
| TurnMachine.DeclaredKeeps | gicg_engine/action_execute_other.go:106-127 | The first declaration names the first to end and hands the turn on; the second ends the round with the turn where it was |
| TurnMachine.RunFair | gicg_engine/action_execute_other.go:86-150 | At every decision point of every run of skills, cards, switches, tunings, declarations, choices and round starts, the player to move in the action phase has not declared and FirstEnd names who has |
| TurnMachine.StepIsOperation | gicg_engine/action_execute.go:7-81 | A step of those runs is the operation its action names |
| TurnMachine.FirstEndStays | gicg_engine/action_execute_other.go:86-127 | Within a round, after a declaration, FirstEnd keeps its value and the turn stays with the other player |
| TurnMachine.NextRoundStartsWithFirstEnd | gicg_engine/round.go:52-65 | The next round starts with whoever ended the last one first |
| TurnMachine.PauseNamesTheOther | gicg_engine/action_execute_other.go:106-127 | In the pause the turn names the player who ended last; the next round starts with the other |
| TurnMachine.FirstRoundStartsWithZero | gicg_engine/action_execute_other.go:130-148 | However the characters are chosen, player 0 starts the first round |
| TurnMachine.GameOverAtRoundStart | gicg_engine/round.go:60-62 | A round-start hook that ends the game is overruled by the action phase |
| TurnMachine.Game.NewRound | gicg_engine/round.go:36-66 | Whoever ended first starts; nobody has declared; the action phase begins in any case |
| TurnMachine.Game.EndPhase | gicg_engine/round.go:73-129 | Runs the four stages until one ends the game, then the round limit, then the pause |
| TurnMachine.EndPhaseLaw | gicg_engine/round.go:73-129 | The end phase is the four stages in order up to the first that ends the game, then game over at the round limit, else the pause |

## Left out

- EnumerateCostPayments: with more prefixes than the first one has extensions, where some payment can avoid native-first and no second same-colour part fits or can be paid, whether a valid payment is missed is decided by `ReturnedIffCovered` in terms of which prefixes phase 2 reads intact, not by a condition on pool and cost alone.
- BuffBook.StepGood: a removal names an independent instance or none, as at all six places that call `RemoveBuff` (`buffs.go:92`, `buff_state.go:34`, `:83`, `:92`, `:133`, and `support.go:19` with the identity of a spawned instance); `RemoveGoodIff` says why.
- TCP clients, sockets, shared-memory mapping and naming, process start-up, C and Python shims: input and output.
- Weak-memory orderings and back-off in the ring, the single-slot response ring, and `shm_win.c`, which has the same push and pop.
- The contents of the DSL: lexer, interpreter, token maps and card rules are arbitrary hook bodies here.
- The regular expressions that extract provided and depended symbols from a file (`loader_topo.go:18-75`): the lists are given.
- Node numbering under concurrent allocation: a batch of children gets consecutive numbers in one step; numbers carry no meaning beyond identity.
- Prior, leaf value and availability arithmetic of the tree, PUCT's formula and float rounding: scores are arbitrary reals.
- A search of zero rollouts, which has no workers: `SearchTermination` has one worker or more.
- Deferred effects and damage-log frames: part of the hook bodies, which are arbitrary functions of the whole state and their context.
- The lists of a snapshot other than the counters and one list: copied the same way into buffers of their own.
- `removeCharacterBuffs`: a loop of the modelled removals and writes, covered by the statements about any sequence of operations.
- Overflow of the 64-bit buff serial, which the code turns into a panic.
- The log mark of a suspended operation is one length; the code also keeps a round-snapshot count and a step number, cut back the same way.
- The choice of colour values and of reroll counts (`buildColorValues`, `greedyRerollChoice`): parameters of the fold and of the minimax player.
- Card hands, the card that tuning discards, and which payments, cards and characters are legal.
- Observation encoders, checkpoints, replay text, training environments and rewards: layout and bookkeeping.
