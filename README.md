# Baccarat shoe rigging, modelled and proved in Dafny

The system builds an eight-deck punto banco shoe (416 cards) in which
almost every round is *sensitive*: exchanging the round's first two cards
(Player's first card P1 and Banker's first card B1) flips the outcome
between Player (閒) and Banker (莊). It then paints suits and card colours so
that a watcher can read signals from them:

- a signal suit marks the rounds that are followed by a Banker win (the
  index set S);
- a tie suit marks the rounds that are followed by a tie (和);
- a red/black pattern on the first four cards (BBBR or RRRB) is spread over
  an exact 50/50 colour budget;
- in the JavaScript variants, T signals (a round with two pairs followed by
  a tie) and red-zero signals (a red 10/J/Q/K) mark rounds too.

`go/waa.py` is the reference pipeline. `script.js`, `signals.js`,
`signals_ui.js` and `red-zero-signal-test.js` re-implement it for the
browser, each with its own variations.

The model follows that structure. One Dafny module covers each part of the
pipeline:

- **Cards and engine.** `Base`, `Cards`, `Engine` and `NestedEngine`: the
  card values, the round engine with its third-card tableau, and the
  sensitivity oracle. The engine is one pure specification over card
  points, parametrized by which `Simulator` deals: `WaaSimulator`, the
  go/waa.py class that script.js copies, and `SignalsSimulator`, the
  nested class of signals.js that red-zero-signal-test.js copies and
  signals_ui.js deals with. `SignalsSimulator` draws Banker's third card
  but leaves it out of Banker's total. Each class has a step-by-step
  implementation proved equal to the specification under its own
  `Simulator`. Every consumer deals with the `Simulator` of its own
  file: go/waa.py and script.js with `WaaSimulator`; signals.js,
  signals_ui.js and red-zero-signal-test.js with `SignalsSimulator`.
  Members shared by several files take the `Simulator` as a parameter
  and are proved for either one.
- **Shoe building.** `Shuffle`, `Deck`, `Perms` and `Tail`: the in-place
  Fisher-Yates shuffle with its draws as a parameter, the three deck
  builders, the permutation enumeration, and the tail resolvers.
- **Packing.** `Scan`, `Pool`, `WaaPack`, `JsPack`, `JsSegments`,
  `SignalsPack`: the left-to-right scan, the multi-pass reshuffle and
  rescan, the packers, and the B/C segments built from the tail.
- **go/waa.py suit rules.** `Suits`, `TieSignal`, `Distribution`,
  `Balance`, `Colour` and `ShoeRules`: the rank-matched suit exchanges,
  the tie signal, the distribution of the signal suit into S, late
  balancing, the colour rule, and the per-shoe retry loop with its
  integrity check.
- **script.js suit rules.** `RoundSlots`, `JsRules`, `JsSuits` and
  `JsColour`: position swaps of equal-point cards between rounds, the
  combined tie and signal rules, the suit-letter helpers and suit counts,
  and the exchange rule of the colour swap.
- **Signals files.** `SignalCards`, `TSignal`, `TBalance`, `TSignalLogic`,
  `ColourSwap`, `ColourRun` and `RedZero`: the signal-card
  configuration, the two-pairs and T-signal logic, the signals.js colour
  swap and the red-zero analysis.
- **Cut.** `Cut`: the cut simulation of go/waa.py and the cut rotation
  and round rebuild of script.js.

Randomness is always an explicit parameter. A shuffle takes its draws
`pick(i) <= i`. A loop that reshuffles or picks at random takes an oracle
indexed by its iteration. Rounds are values (`Round`). Suit and colour
rules that mutate cards in place are modelled as functions on card
sequences, or as methods that return the rewritten rounds. A card is named
by its place (round, index) or by its `pos`.

## Model

| member | source | states |
|---|---|---|
| Cards.Point | go/waa.py:54 | the value of a rank is at most 9; it is zero exactly for 10/J/Q/K and equals the face for 1..9; red-zero-signal-test.js (lines 11-14): the same value table as the JavaScript `point()` |
| Cards.PointsOfCopies | go/waa.py:287-289 | renumbered copies of cards have the same points as the originals, so they deal the same rounds |
| Engine.Deal | go/waa.py:108-145 | for either `Simulator`, a completed round consumes 4 to 6 cards that lie within the run, and both totals are at most 9; signals.js (lines 164-209): the nested deal consumes its cards the same way |
| Engine.DealNoneIff | go/waa.py:110-143 | no round exactly when fewer than four cards remain or a required third card lies past the end; a completed round is unchanged by extending the run |
| Engine.NaturalEndsRound | go/waa.py:116-119 | a natural (8 or 9 on either side's first two cards) ends the round at four cards with the two-card totals |
| Engine.DealFrame | go/waa.py:110-146 | a round reads only the points of the cards it consumes: any run that agrees on them deals the same hand |
| Engine.SimulateRound | go/waa.py:108-160 | the step-by-step deal returns exactly the specified record: the consumed slice, the outcome and the sensitivity flag, or nothing; script.js (lines 24-71): the script.js `simulate_round` is the same algorithm and meets the same contract |
| Engine.DealSteps | go/waa.py:110-145 | the drawing steps (first four cards, the natural test, the Player and Banker third-card rules, running totals mod 10, the end-of-deck exits) yield exactly the specified hand; script.js (lines 26-64): the script.js drawing steps are the same and yield the same hand |
| Engine.SwapResult | go/waa.py:162-168 | the swapped replay's outcome and card count, or (None, 0) when it does not complete; script.js (lines 73-81): the same, including (None, 0) when `start + 1` is out of range |
| Engine.RoundAtFields | go/waa.py:145-160 | the record holds the dealt slice, its outcome, and the five-part sensitivity rule over the swapped replay |
| Engine.SensitiveFrame | go/waa.py:150-159 | a sensitive round stays sensitive on any run with the same points over its own cards |
| Engine.SensitiveOnOwnCards | go/waa.py:150-159 | a sensitive round dealt on its own cards from index 0 is the same round and still sensitive |
| Engine.EqualPointReplace | script.js:27-65 | replacing a card by one of equal point value changes no round's existence and no sensitivity flag (the engine reads only `point()`) |
| NestedEngine.SimulateRoundAsWritten | signals.js:164-234 | the nested step-by-step deal as written returns exactly the specified record under `SignalsSimulator`; red-zero-signal-test.js (lines 38-108): the red-zero copy of the class is the same code and meets the same contract |
| NestedEngine.DealStepsAsWritten | signals.js:167-211 | the nested drawing steps as written (natural at 8 or more, Banker drawn only after a Player draw by the table, or on 5 or less, its point never added) yield exactly the `SignalsSimulator` hand |
| NestedEngine.SwapResultAsWritten | signals.js:236-248 | the `SignalsSimulator` swapped replay, or (None, 0); red-zero-signal-test.js (lines 110-122): the same for the red-zero copy |
| NestedEngine.AsWrittenConsumesSameCards | signals.js:189-211 | `SignalsSimulator` consumes the same cards and reaches the same Player total as `WaaSimulator`; Banker keeps its two-card total |
| NestedEngine.BankerThirdCardIgnored | signals.js:195-205 | a concrete deal where `WaaSimulator` (go/waa.py) scores a tie 0–0 and `SignalsSimulator` (signals.js) scores Banker 2–0 |
| NestedEngine.SimulateRoundNested | signals.js:164-234 | with Banker's third card counted, the nested class returns on every deck the `WaaSimulator` record: same cards, result and sensitivity |
| NestedEngine.DealStepsNested | signals.js:167-211 | the nested drawing steps with Banker's third card counted yield exactly the `WaaSimulator` hand |
| NestedEngine.SwapResultNested | signals.js:236-248 | the corrected nested replay agrees with the go/waa.py `_swap_result` |
| Perms.PermutationsSound | signals_ui.js:800-820 | every listed ordering is a permutation of the input; signals.js (lines 2800-2820): the signals.js copy is the same function |
| Perms.PermutationsComplete | signals_ui.js:800-820 | every permutation of the input is listed; go/waa.py (lines 308): `itertools.permutations` of the tail, in the same index-lexicographic order, covers every ordering |
| Perms.PermutationsCount | signals_ui.js:800-820 | exactly n! orderings are listed |
| Shuffle.ShuffleInPlace | script.js:101-106 | the in-place shuffle leaves the array equal to the specified exchange sequence applied to its old contents, and a permutation of them; red-zero-signal-test.js (lines 126-131): the same shuffle |
| Shuffle.ShuffledIsPermutation | script.js:101-106 | the shuffle only rearranges |
| Shuffle.ShuffledCommutesWithMap | script.js:101-106 | the draws never look at the entries: projecting after shuffling equals shuffling the projections |
| Shuffle.ShuffledKeepsDistinct | script.js:101-106 | shuffling distinct entries keeps them distinct |
| Deck.Base52FaceCount | go/waa.py:96 | one 52-card deck holds every (rank, suit) exactly once |
| Deck.ShuffledFaces | go/waa.py:100 | the shuffled cards hold the same faces as the unshuffled ones |
| Deck.BuildShuffledDeck | go/waa.py:95-102 | 416 cards, every (rank, suit) exactly 8 times, `pos` equal to the final index, no colour yet |
| Deck.BuildBackedDeck | script.js:201-228 | 416 cards, every (rank, suit) 8 times, `pos` equal to the final index, the colour equal to the back, exactly 208 red backs |
| Deck.BuildDeckNumberedFirst | red-zero-signal-test.js:134-149 | 416 cards, every (rank, suit) 8 times, the positions a permutation of 0..415 and distinct, assigned before the shuffle |
| Tail.SeqResult | go/waa.py:229-236 | an outcome only for at least four cards, and then the outcome of the lenient totals |
| Tail.SeqPoints | go/waa.py:238-282 | totals exactly for four cards or more, each at most 9 |
| Tail.SeqPointsAgree | go/waa.py:238-282 | whenever the engine completes the round, `_seq_points` reports the engine's totals |
| Tail.SeqPointsIsLenient | go/waa.py:257-268 | four zero-point cards: the engine gives up, `_seq_points` still reports 0 to 0 |
| Tail.IsSensitiveSequence | go/waa.py:284-290 | true exactly when the renumbered copy deals one sensitive round that consumes every card |
| Tail.Heuristics | go/waa.py:296-303 | each heuristic ordering is a permutation of the tail |
| Tail.CandidatesArePermutations | go/waa.py:296-310 | every ordering tried, heuristic or exhaustive, is a permutation of the tail |
| Tail.FirstSensitive | go/waa.py:304-310 | the first candidate that forms a sensitive round, and none exactly when no candidate does |
| Tail.TryMakeTailSensitive | go/waa.py:292-311 | nothing unless 4, 5 or 6 cards; a result is a permutation of the tail forming a sensitive round on every card; no result means no permutation works |
| Tail.LastWithShort | go/waa.py:329 | the card taken for a face is the last one left with that face text (`pop()`) |
| Tail.TakeByFaceCards | go/waa.py:324-329 | the rebuilt order uses exactly the tail's cards |
| Tail.TakeByFaceShorts | go/waa.py:324-329 | the rebuilt order spells out the requested faces |
| Tail.TryManualTail | go/waa.py:316-330 | a result exactly when the manual list is non-empty, names the tail's faces and the rebuilt order is sensitive; the result then is the tail in the manual order |
| Scan.ScanAllSensitiveRounds | go/waa.py:174-181 | for the given `Simulator`, the rounds found are its sensitive records in increasing start order, and every sensitive start is among them; script.js (lines 232-240): the same loop, dealing with `WaaSimulator`; signals.js (lines 293-305): the same loop, dealing with `SignalsSimulator`, which signals_ui.js (lines 300-306) calls; red-zero-signal-test.js (lines 152-164): the same loop, dealing with its copy of `SignalsSimulator` |
| Scan.SliceSelfSensitive | go/waa.py:201-208 | a sensitive round found inside the reshuffled pool is dealt the same, and still sensitive, on its own cards |
| Scan.MapBack | go/waa.py:210-218 | the mapping back to pool cards succeeds exactly when the dealt pool cards have distinct positions, and then gives those cards in dealing order |
| Scan.RescanMove | go/waa.py:198-222 | one step of the reference rescan `GreedyRescan` moves strictly forward and stays inside the shuffled pool: past a complete round dealt at the index, else to the next index |
| Scan.RescanAt | go/waa.py:198-222 | one turn of the rescan loop moves strictly forward; a kept round is the next slice of the pool and forms a sensitive round on its own cards; while every used temporary index lies before the one tried, the turn is exactly one step `RescanMove` of the reference, and a used index is skipped by one |
| Scan.RescanAdvance | go/waa.py:195-223 | a turn of the rescan appends to what was kept exactly what the reference keeps at that index, so the kept rounds plus the rest of the reference scan stay the whole reference scan |
| Scan.RescanTurn | go/waa.py:198-222 | one turn of the rescan loop keeps its invariant: used temporary indices lie before the index, the rounds kept are sensitive rounds of pool cards used at most once, and they are the reference scan's rounds up to the index |
| Scan.Rescan | go/waa.py:195-223 | the rounds kept are exactly those of the greedy reference rescan `GreedyRescan` of the shuffled pool from index 0; every one is a sensitive round of pool cards, and together they use each pool card at most once |
| Scan.MultiPassCandidates | go/waa.py:183-223 | nothing for a pool under the variant's minimum, otherwise exactly the reference rescan `GreedyRescan` of the pool shuffled with the draws (`Rescanned`); every round is sensitive, under the variant's `Simulator`, on its own cards, starts at its first card's `pos`, and the rounds are disjoint pieces of the pool; script.js (lines 242-276): the same loop with `WaaSimulator`, the start index read from the array and so undefined; signals_ui.js (lines 240-293): the same loop with `SignalsSimulator`, for pools of two cards and more, scanning up to the last card; red-zero-signal-test.js (lines 760-813): the go/waa.py loop, dealing with `SignalsSimulator` |
| Pool.Unused | go/waa.py:854 | the unused cards are exactly the deck's cards whose position is not used |
| Pool.UnusedShrinks | go/waa.py:853-866 | marking an unused card's position as used strictly shrinks the pool, which bounds the reinforcement loop |
| Pool.UnusedRemove | go/waa.py:866-869 | on a deck without repeated positions, using up the positions of some unused cards removes exactly those cards |
| Pool.DisjointAppend | go/waa.py:846-850 | a round that avoids every kept position keeps the kept rounds pairwise disjoint |
| Pool.InsertByStartSorted | go/waa.py:882 | inserting by start index keeps a list sorted |
| Pool.SortByStartBag | go/waa.py:882 | sorting by start index keeps the same rounds and the same cards |
| Pool.SortByStartSorted | go/waa.py:882 | the sorted list is in start order |
| Pool.SortByStartPositions | go/waa.py:882 | the sorted list covers the same positions and stays disjoint |
| WaaPack.LedgerAppend | go/waa.py:849-850 | keeping a round of unused cards keeps the rounds disjoint, `used_pos` equal to their positions, and rounds plus unused cards equal to the deck |
| WaaPack.KeepDisjointScans | go/waa.py:846-850 | the natural rounds kept are disjoint, taken from the scan, and every natural round left out overlaps a kept one |
| WaaPack.ReinforceOnce | go/waa.py:854-866 | nothing is taken exactly when the reshuffle of the unused cards offers no round; otherwise the round taken is the first one offered, a reshuffled sensitive round of at least four unused cards, none at a used position |
| WaaPack.UnusedCardsUnused | go/waa.py:863-864 | cards drawn from the unused ones sit at unused positions, so the test of a picked card's position against the used ones never stops the loop |
| WaaPack.ReinforceStep | go/waa.py:865-866 | keeping a reshuffled round keeps the ledger and uses up at least one card |
| WaaPack.Reinforce | go/waa.py:853-866 | the reinforcement loop keeps the ledger, and every round it adds is a reshuffled sensitive round; it stops only when fewer unused cards remain than the minimum card count or the tail stop, or when the reshuffle with the next draws offers no round |
| WaaPack.FinishTail | go/waa.py:869-881 | failure exactly when the tail has a size other than 0, 4, 5 or 6 or no ordering of it is sensitive; a result is a rearrangement of the tail, sensitive when not empty, and the manual order wins when it works |
| WaaPack.PackedFacts | go/waa.py:869-883 | the final ledger and tail give a packed shoe |
| WaaPack.PackAllSensitiveOnce | go/waa.py:836-883 | the reinforcement stops on too few unused cards or on a reshuffle offering nothing; the pack then fails exactly when the cards left unused have a bad size or no ordering of them is a sensitive round; on success the tail is those cards reordered, and: pairwise disjoint sensitive rounds; a tail of 0, 4, 5 or 6 cards holding exactly the cards of no round; when the tail is not empty it is a sensitive round and the rounds are sorted by start; rounds plus tail are the deck |
| JsPack.FirstFit | script.js:350 | `find` returns the first fitting candidate from the index on, and nothing exactly when none fits |
| JsPack.PickUnused | script.js:346-358 | nothing from a pool below the minimum; a round taken is a reshuffled sensitive round of at least four unused cards, none at a used position |
| JsPack.JsReinforce | script.js:343-362 | the reinforcement keeps the ledger, marks every added round A, and ends with fewer unused cards than the minimum or after 200 failed reshuffles; red-zero-signal-test.js (lines 695-720): the same loop with a minimum of six cards, its rounds sensitive under `SignalsSimulator` |
| JsPack.NaturalKept | script.js:335-341 | every natural sensitive round is in segment A or shares a position with a kept round |
| JsPack.MinPos | script.js:371 | the C round's start is the smallest position among its cards |
| JsPack.ResidueRounds | script.js:369-374 | the residue becomes at most one round, holding exactly the C cards |
| JsPack.SegmentsPartition | script.js:366-378 | on a deck without repeated positions, segments A, B and C are disjoint and hold exactly the deck's cards |
| JsPack.PackAndSegment | script.js:325-381 | segment A: natural or reshuffled sensitive rounds marked A, sorted by start; a natural round is missing only when it overlaps a kept one; B is exactly the greedy cut of the unused tail: non-sensitive rounds, each dealt where the previous one ended, a card skipped where none completes; C the rest; `final_rounds` is A + B + C and `final_card_deck` its cards, a partition of the deck; script.js deals with `WaaSimulator`; red-zero-signal-test.js (lines 676-757): the same packer dealing with `SignalsSimulator`, with a six-card minimum and B rounds starting at their first card's `pos` |
| JsSegments.Trim | script.js:384 | `trim()` removes exactly the white space at both ends |
| JsSegments.TieResultOfLabel | script.js:382-386 | on stored results, `_is_tie_result` holds exactly for the tie label |
| JsSegments.TieResultTrims | script.js:382-386 | surrounding white space does not hide a tie, inner white space does |
| JsSegments.SIdxForSegment | script.js:387-395 | contains i exactly when round i is of the segment and round i + 1 is a Banker win; increasing; red-zero-signal-test.js (lines 167-175): the same function |
| JsSegments.SIdxForSegmentMatchesPython | go/waa.py:336-342 | on a shoe of segment A rounds, the linear list equals go/waa.py's `compute_sidx_new` |
| JsSegments.CyclicSIdxForSegment | signals.js:308-320 | contains i exactly when the linear rule holds, or i is the last index, that round is of the segment and the first round is a Banker win; increasing |
| JsSegments.CyclicExtendsLinear | signals.js:315-318 | the cyclic list is the linear list, extended by at most the last index and only when it wraps |
| JsSegments.DealCopies | script.js:280-288 | dealing the renumbered copies of the tail without the sensitivity test gives the tail's own hand |
| JsSegments.BSlice | script.js:288-296 | the round cut out of the tail is a non-sensitive B round of its slice |
| JsSegments.WalkStep | script.js:286-304 | one step of the walk: where the round dealt at the index completes, exactly that slice becomes the next B round and the index moves past it; otherwise nothing is added and the index moves by one; the bookkeeping is kept |
| JsSegments.WalkTail | script.js:284-305 | the walk ends at the end of the tail, and its B rounds are exactly the greedy cut `GreedyB` of the tail, each a slice of it |
| JsSegments.BuildBAndCSegments | script.js:278-309 | under four cards, no B rounds and the whole tail as C cards; otherwise the B rounds are exactly the greedy cut of the tail (from each index, the round dealt there if it completes, else the next index), non-sensitive slices of it, the C cards are the tail cards in no B round, and on distinct positions B and C partition the tail; script.js deals with `WaaSimulator`; red-zero-signal-test.js (lines 816-858): the same walk, dealing with `SignalsSimulator`, each B round starting at its first card's `pos` |
| JsSegments.GreedyStep | script.js:286-304 | a step of the walk leaves exactly the greedy cut of the rest: rounds cut so far followed by the cut from the new index equal those before the step followed by the cut from the old one |
| JsSegments.GreedyBShort | script.js:279 | a tail of fewer than four cards holds no round, so the greedy cut is empty |
| SignalsPack.LastRoundFacts | signals_ui.js:336-350 | the round appended when six or fewer cards remain is sensitive under `SignalsSimulator`, marked A and made of unused cards |
| SignalsPack.Harvest | signals_ui.js:329-379 | the harvest keeps the ledger, marks every added round A, and ends with six or fewer unused cards or after 200 failed reshuffles |
| SignalsPack.LastC | signals_ui.js:417-418 | the last segment C round, and none exactly when no round is of segment C |
| SignalsPack.ResidueKept | signals_ui.js:401-409 | before the T logic the C cards are the unused tail, and the rounds hold the deck |
| SignalsPack.NewSegmentA | signals_ui.js:412-418 | after the T logic segment A still holds only natural or reshuffled sensitive rounds |
| SignalsPack.SignalsPackAndSegment | signals_ui.js:297-442 | dealing with `SignalsSimulator`: segment A holds natural or reshuffled rounds, none a two-pairs tie and no more ties than two-pairs rounds; no B rounds; the C cards are those of the last C round; on distinct positions the final cards are the deck |
| Suits.CountSuit | go/waa.py:569 | the count of a suit is its multiplicity among the cards' suits |
| Suits.SetSuit | go/waa.py:481 | writing one suit changes that one card's suit and nothing else |
| Suits.SetSuitCounts | go/waa.py:481 | writing one suit replaces one face of the shoe and moves one card between two suit counts |
| Suits.SwapSuits | go/waa.py:345-354 | nothing for cards of different ranks; otherwise the two cards exchange suits and every other card is unchanged |
| Suits.SwapSuitsKeepsCounts | go/waa.py:345-354 | the exchange keeps the shoe's (rank, suit) multiset and every suit count |
| Suits.SIdx | go/waa.py:336-342 | contains i exactly when view i + 1 is a Banker win; increasing |
| Suits.TieIndices | go/waa.py:431-434 | contains i exactly when view i + 1 is a tie; increasing |
| Suits.SIdxAvoidsTies | go/waa.py:431-434 | no view is both before a Banker win and before a tie |
| Suits.CountSuitFull | go/waa.py:475-476 | a view's tie count equals its length exactly when all its cards have the tie suit |
| Suits.SwapStep | go/waa.py:463 | a same-rank exchange inside a rule keeps the shoe's faces and the rule's relation to its input |
| TieSignal.FindDonor | go/waa.py:447-459 | the first unlocked same-rank tie-suit card outside the view in shoe order, and none exactly when no such card exists |
| TieSignal.TieCard | go/waa.py:441-467 | failure exactly when the card lacks the tie suit and has no donor; otherwise the card ends with the tie suit, the faces are kept and no locked card changes |
| TieSignal.TieSwaps | go/waa.py:439-467 | on success every card of the listed views has the tie suit, the faces are kept, and the locked cards are exactly those views' cards |
| TieSignal.AltSuits | go/waa.py:471 | the three suits other than the tie suit |
| TieSignal.BreakMonoTie | go/waa.py:469-482 | exactly the non-empty views outside the tie list made of the tie suit alone get another suit on their first card; afterwards none of them is all tie suit |
| TieSignal.EnforceTieSignal | go/waa.py:422-483 | nothing without a tie suit; on success every card of the views before a tie has the tie suit and is locked, and no other non-empty view is all tie suit |
| TieSignal.ValidateTieSignal | go/waa.py:548-561 | passes exactly when a card has the tie suit if and only if its view is before a tie |
| TieSignal.ValidateAfterEnforce | go/waa.py:548-561 | after a successful enforcement, validation fails only on a tie-suit card outside the tie views |
| Distribution.SortDesc | go/waa.py:600-604 | a stable sort of S by descending room: a permutation of S in non-increasing key order |
| Distribution.InitialTargets | go/waa.py:591-595 | the targets start at each listed view's signal count and are zero elsewhere |
| Distribution.HandOut | go/waa.py:605-611 | the round-robin ends, raises only targets of listed views with room, keeps them at most the view length, and hands out exactly `remain` |
| Distribution.Targets | go/waa.py:590-611 | each target lies between the view's signal count and its length, is zero outside S, and the targets sum to the signal total |
| Distribution.Donors | go/waa.py:577-584 | the donors are exactly the signal cards outside S, in shoe order |
| Distribution.Receivers | go/waa.py:622 | the receivers are exactly the non-signal cards of the view, in order |
| Distribution.FindPair | go/waa.py:631-648 | the first receiver that has a same-rank donor, with its first such donor, and none exactly when no pair exists |
| Distribution.ExchangeEffect | go/waa.py:640 | an exchange adds one signal card to the receiving view, changes no other listed view, and gives no card outside S the signal suit |
| Distribution.TransferOne | go/waa.py:625-652 | one turn of the inner loop: resources short exactly when no donor or no receiver is left; otherwise one same-rank exchange into the view, or no pair at all |
| Distribution.FillView | go/waa.py:615-652 | the view gains exactly `need` signal cards unless a turn fails, and no other listed view changes |
| Distribution.ExecSwaps | go/waa.py:613-652 | on success every listed view holds exactly its target; faces are kept, S only gains and the outside only loses the signal suit |
| Distribution.NothingLeft | go/waa.py:654-655 | filling to targets that sum to the signal total leaves no signal card outside S, so the closing assertion always holds |
| Distribution.LockedSignal | go/waa.py:658-661 | the locked cards are exactly the signal cards of the listed views |
| Distribution.EnforceSuitDistribution | go/waa.py:563-662 | nothing for an empty S; the capacity error exactly when S is not empty and cannot hold every signal card (both directions); on success no signal card is left outside S, each listed view holds at most its length, and the signal cards of S are locked |
| Distribution.EnsureSignalPresence | go/waa.py:357-412 | on success every listed view holds a signal card, faces are kept, and the locked cards are the signal cards of S; failure is one of the two errors |
| Distribution.PresenceOne | go/waa.py:374-405 | one listed view: after success this view and every earlier listed one hold the signal suit, faces and cards are kept, and signal cards only move into the list; the shortage error is raised exactly when the view lacks the suit and there are no donors or no receivers; an error leaves the views unchanged |
| Balance.LastFree | go/waa.py:696-704 | the last unlocked card of the low suit with the given rank in shoe order (`pop()`), and none exactly when no such card exists |
| Balance.MoveOne | go/waa.py:688-713 | no move exactly when no unlocked high-suit card has an unlocked low-suit partner of its rank; otherwise the first such card exchanges suits with the last partner, and only these two cards change |
| Balance.MoveFacts | go/waa.py:707 | the exchange a move makes keeps the faces and changes no locked card and no card of a third suit |
| Balance.FirstMax | go/waa.py:682 | Python's `max` with a key: the first index of a largest entry |
| Balance.FirstMin | go/waa.py:683 | Python's `min` with a key: the first index of a smallest entry |
| Balance.Tally | go/waa.py:669-674 | the counts of the listed suits, in list order |
| Balance.BalancedSuitsMembers | go/waa.py:678-679 | the balanced suits are exactly the suits that are neither the signal suit nor the tie suit |
| Balance.ThreeOtherSuits | go/waa.py:498 | with only a tie suit excluded, three suits are balanced |
| Balance.MoveKeepsUntouched | go/waa.py:690-693 | a move between two balanced suits leaves every locked card and every card of an excluded suit untouched |
| Balance.LateBalance | go/waa.py:664-730 | faces kept, locked and excluded-suit cards untouched; true exactly when fewer than two suits are balanced or the balanced suits' counts differ by at most `diff` |
| Balance.BalanceNonTieSuits | go/waa.py:486-546 | nothing without a tie suit; otherwise faces kept, locked and tie-suit cards untouched, and when it stops on the tolerance test every other suit lies within the tolerance of their average (in integers scaled by three) |
| Colour.Need | go/waa.py:764-765 | how many of the first k pattern colours are the given colour, at most k |
| Colour.PrefixLen | go/waa.py:758 | `min(4, len)` |
| Colour.SetColour | go/waa.py:787 | writing one colour changes that one card's colour and nothing else |
| Colour.SetColourCounts | go/waa.py:787 | writing one colour moves one card between two colour counts |
| Colour.PaintPrefix | go/waa.py:786-787 | the first min(4, len) cards of the list take the pattern's colours, nothing else changes, and on uncoloured cards the quotas used are the pattern's counts |
| Colour.ChoosePattern | go/waa.py:767-780 | an error exactly when neither pattern fits the quotas; otherwise a fitting pattern, and the random choice when both fit |
| Colour.FirstFours | go/waa.py:789-794 | on success every list's first min(4, len) colours follow BBBR or RRRB and the rest is unchanged; on an uncoloured shoe the quotas left are the budget minus the colours used; the only error is the quota error |
| Colour.FirstFour | go/waa.py:756-787 | one card list: the quota error is raised exactly when it has first cards and neither BBBR nor RRRB fits the quotas left; otherwise its first cards are painted and the quotas reduced |
| Colour.FillStep | go/waa.py:820-821 | an uncoloured card takes the pool's last colour |
| Colour.FillRest | go/waa.py:818-821 | every card ends coloured, cards coloured before keep their colour, and the colour counts grow by the pool's |
| Colour.FillFromQuota | go/waa.py:797-825 | the pool error exactly when fewer quota colours remain than uncoloured cards; otherwise every card is coloured, earlier colours kept, and with an exact pool the counts grow by the quotas |
| Colour.StillPatterned | go/waa.py:827 | filling the uncoloured cards keeps every patterned prefix |
| Colour.ApplyColourRule | go/waa.py:732-830 | on success every card is coloured, only colours change, every round's and the tail's first min(4, len) colours follow BBBR or RRRB, and on an uncoloured shoe exactly total // 2 cards are red; on an uncoloured shoe the only possible error is the quota error |
| ShoeRules.RoundViews | go/waa.py:893-897 | one view per round, then the tail's when it is non-empty and deals a result |
| ShoeRules.RoundLabels | go/waa.py:893-897 | each view carries its round's result, and the tail its dealt outcome |
| ShoeRules.ViewsHoldShoe | go/waa.py:893-897 | when the tail joins, the views hold exactly the rounds' cards and then the tail's |
| ShoeRules.HeldSurvives | go/waa.py:911-924 | the balancing steps keep the signal cards of S, because those cards are locked |
| ShoeRules.ApplyShoeRules | go/waa.py:885-933 | only suits change; without a tie suit the faces are kept; when every rule passes, the tie signal validates and the signal cards the distribution locked are still in S with the signal suit |
| ShoeRules.CheckIntact | go/waa.py:1111-1124 | the check passes exactly when every (rank, suit) appears `NUM_DECKS` times |
| ShoeRules.FacesOfPermutation | go/waa.py:1111-1112 | two lists holding the same cards hold the same faces |
| ShoeRules.SameFacesBag | go/waa.py:1111-1112 | views whose cards have the same faces place by place have the same face multiset |
| ShoeRules.PackedShoeIntact | go/waa.py:1111-1124 | a shoe packed from a fresh deck holds every face `NUM_DECKS` times |
| ShoeRules.RebuildViews | go/waa.py:893-897 | the rounds and tail rebuilt from suit-rewritten views give back those views with the same results |
| ShoeRules.SameRanksSameResult | go/waa.py:895-896 | suits do not change the tail's dealt result |
| ShoeRules.GenerateOrRetry | go/waa.py:935-957 | a result has a 416-card deck with every face 8 times and a tail of 0, 4, 5 or 6 cards; without a tie suit its rounds and tail hold every face 8 times; with one the tie signal validates |
| ShoeRules.MakeShoe | go/waa.py:1085-1124 | a made shoe holds every face eight times and, with the colour rule, every card is coloured; a colour failure is one of its two errors; without a tie suit the integrity check never rejects |
| Cut.Played | go/waa.py:971-978 | the number of leading rounds that fit within the cut, at most the number of rounds |
| Cut.SimulateCutPositions | go/waa.py:963-982 | one row per cut position 1..total with the rounds played before the cut, the sensitive ones among them and the tail |
| Cut.HitsAtMostPlayed | go/waa.py:971-978 | the hits are at most the rounds played, and equal to them in an all-sensitive shoe |
| Cut.PlayedMonotone | go/waa.py:967-978 | cutting deeper never plays fewer rounds |
| Cut.PlayedAll | go/waa.py:971-976 | cutting below every round plays them all |
| Cut.NormalizeCut | script.js:2157-2167 | no cut for a deck of at most one card or a negative count; otherwise the remainder of the count by the deck size, the count itself when below it |
| Cut.RotateAt | script.js:2172-2174 | card i of the rotated deck is card (i + k) mod n of the deck |
| Cut.RotateIsPermutation | script.js:2172-2174 | rotating only rearranges the deck |
| Cut.RotateBack | script.js:2172-2174 | cutting at k and then at n − k gives back the deck |
| Cut.RotateAndRenumber | script.js:2172-2179 | the rotated order with every `pos` set to the new index |
| Cut.DealOutCovers | script.js:1851-1869 | dealing out loses and repeats no card: the rounds followed by the rest are the deck from the cursor on |
| Cut.DealOutStops | script.js:1856-1860 | what is left after dealing out cannot be dealt as a round |
| Cut.RebuildRoundsFromDeck | script.js:1851-1869 | the loop deals the rounds one after another from the top, each labelled A, and the tail is every card after the last one |
| RoundSlots.Put | script.js:175 | writing one place changes that place only and keeps every round's shape |
| RoundSlots.SwapPlacesEffect | script.js:175 | the exchange puts each card where the other was and leaves every other place |
| RoundSlots.SwapPlacesMultiset | script.js:175 | the exchange keeps the multiset of cards of the shoe |
| RoundSlots.SwapPlacesUnique | script.js:175 | the exchange keeps the cards distinct |
| RoundSlots.IndexOf | script.js:149-157 | `indexOf` is −1 exactly when the card is absent, and otherwise the first index holding it |
| RoundSlots.LocateFromFound | script.js:146-161 | the search finds nothing exactly when no round from there on holds the card, and otherwise a place holding it |
| RoundSlots.LocateUnique | script.js:146-161 | with distinct cards the search finds each card exactly at its place |
| RoundSlots.LocateInDeck | script.js:146-161 | every card of a shoe of distinct cards is found, at its place |
| JsRules.SwapCardsInRounds | script.js:135-178 | nothing changes when either card is missing; otherwise the two located places are exchanged; the multiset of cards is kept |
| JsRules.SwapCardsEffect | script.js:135-178 | between two distinct cards of a shoe of distinct cards, each lands where the other was and no other card moves |
| JsRules.PointsKeptSameShoe | script.js:442-483 | a pass that keeps every place's point keeps the point sequence of the shoe and of every round, so the engine deals the same rounds |
| JsRules.SameShapeSIdx | script.js:387-395 | the passes keep segments and results, hence the S rounds and the tie rounds |
| JsRules.TieIndices | script.js:403-408 | exactly the segment A rounds followed by a tie, in increasing order |
| JsRules.FindDonor | script.js:419-423 | a found donor is an unlocked card of the rank and the tie suit; none exactly when every such card is locked |
| JsRules.TieSwapStep | script.js:418-430 | one exchange fills the next card of the round and keeps the rounds already filled |
| JsRules.TieRoundDone | script.js:434 | locking a filled round completes it |
| JsRules.EnforceTieSignalCombined | script.js:399-437 | no tie suit changes nothing; ranks and cards are kept; on success every tie round holds only the tie suit with its cards locked; a failure names a card whose every same-rank tie-suit card is locked |
| JsRules.Donors | script.js:513-517 | exactly the unlocked signal-suit cards outside S, in shoe order |
| JsRules.Receivers | script.js:520-524 | exactly the unlocked cards of other suits inside S, in shoe order |
| JsRules.BestSwap | script.js:527-541 | none exactly when no donor and receiver share a point; otherwise a matching pair at the least distance, the first such in donor-major order |
| JsRules.DistStep | script.js:543-553 | one nearest exchange keeps the invariant of the pass |
| JsRules.FirstWithoutSuit | script.js:566-577 | no error exactly when every S round holds a signal-suit card, and otherwise an S round without one |
| JsRules.DistributeSignalsEvenly | script.js:484-577 | no signal suit changes nothing; points and cards are kept; only unlocked signal cards move, into S; no error exactly when every S round then holds a signal-suit card |
| JsRules.TieSurvives | script.js:448-460 | the tie rounds keep the tie suit through the signal distribution, because their cards are locked |
| JsRules.ApplyCombinedRules | script.js:442-483 | points and cards are kept; on success the tie rounds hold only the tie suit and, with the heart signal on, every S round a signal-suit card |
| Cards.RedZeroFaces | red-zero-signal-test.js:20-26 | a card is a red zero exactly when it is a 10, J, Q or K of hearts or diamonds |
| RedZero.ArrangeAsSRounds | red-zero-signal-test.js:251-287 | n ≥ 1 rounds become 2n − 1: each round sorted by start, relabelled A with a Banker result turned to Player and marked swapped, and a placeholder Banker round without cards after every round but the last |
| RedZero.ArrangedSIdx | red-zero-signal-test.js:167-175 | in that layout every laid-out round but the last is an S round, and no placeholder and not the last one is |
| RedZero.AdjustOne | red-zero-signal-test.js:388-417 | a round changes exactly when it is eligible, and then by the swap |
| RedZero.ApplySwapChanges | red-zero-signal-test.js:396-413 | the swap of an eligible round changes it |
| RedZero.EligiblesMonotone | red-zero-signal-test.js:387 | the eligible rounds among a prefix never exceed those among a longer one |
| RedZero.AdjustBankerCount | red-zero-signal-test.js:384-420 | exactly the first `count` eligible rounds are swapped, nothing else changes, and the returned count is the lesser of `count` and the number of eligible rounds, which is the number of rounds changed |
| SignalCards.Filter | signals.js:35-39 | the kept entries are exactly the allowed ones of the list, each as often as in it, in order |
| SignalCards.SanitizeConfigArray | signals.js:35-39 | nothing for a non-array; otherwise the subsequence of its allowed entries |
| SignalCards.SanitizeSignalConfig | signals.js:41-46 | empty lists for a non-object; otherwise subsequences of the given lists holding only valid suits and ranks |
| SignalCards.SanitizedSignalCard | signals.js:142-149 | through a sanitised configuration, a card is a signal card exactly when its suit and its rank are both among the entries; empty lists make no card a signal card |
| SignalCards.HasTwoPairsIff | signals.js:448-460 | two pairs exactly when four or more cards hold two ranks exactly twice each |
| SignalCards.TripleIsNoPair | signals.js:457-458 | three of a rank and two of another are not two pairs |
| SignalCards.TwoPairsOfFive | signals.js:448-460 | two pairs and a fifth card of another rank are two pairs |
| SignalCards.PairedRanksTwo | signals.js:451-459 | at least two exactly-twice counts exactly when two different ranks occur exactly twice |
| SignalCards.SwapFirstTwoCards | signals.js:427-438 | no outcome for fewer than two cards; otherwise the outcome `SignalsSimulator` deals on renumbered copies with the first two exchanged, from the top without the sensitivity test; the round is a value and is not touched |
| SignalCards.SwapFirstOfSensitive | signals.js:223-226 | on a round sensitive under `SignalsSimulator` (the five-part test of signals.js), the simulated swap of `swapFirstTwoCards` (lines 427-438) exists, changes the outcome and is no tie |
| SignalCards.SensitiveNeedsFour | signals.js:223-226 | a round sensitive under `SignalsSimulator` has at least four cards |
| SignalCards.SwapFront | signals.js:441-445 | the first two cards exchanged, if there are two, and nothing else |
| SignalCards.SwapFrontInvolution | signals.js:441-445 | exchanging twice gives back the cards |
| SignalCards.ExecuteCardSwap | signals.js:441-445 | in place, the array becomes the exchanged cards |
| SignalCards.CanFormSensitiveRound | signals.js:2776-2797 | fewer than four cards cannot; otherwise exactly when some ordering, dealt by `SignalsSimulator` as renumbered copies from the top, is a sensitive round; signals_ui.js (lines 776-797): the same search, with the same `Simulator` |
| SignalCards.CanFormMeansSomeOrdering | signals.js:2776-2797 | the search is exhaustive: an ordering from the list is sensitive under `SignalsSimulator` exactly when some rearrangement of the cards is |
| SignalCards.CanFormInOwnOrder | signals.js:2776-2797 | cards that form a round sensitive under `SignalsSimulator` as they lie pass the search |
| SignalCards.FollowChanges | signals.js:964-990 | the next round changes exactly when the rule fires, then only by the swap, its result changes, and its cards and T flag are kept as a multiset |
| SignalCards.FollowKeepsSignal | signals.js:964-990 | the swap keeps what the rule reads of the round when it is the previous one |
| SignalCards.FollowReadsSignalOnly | signals.js:959-965 | the rule reads only the previous round's T flag and whether it signals |
| SignalCards.FollowStep | signals.js:956-991 | one step of the pass keeps the loop's account: each round follows its original predecessor |
| SignalCards.WrapStep | signals.js:993-1021 | the wrap-around step makes the first round follow the last |
| SignalCards.AnalyzeSignals | signals.js:950-1021 | every round after the first follows its predecessor by the rule, the first follows the last when wrapping; the adjustments are the number of rounds changed and the signal rounds the number of signalling rounds; red-zero-signal-test.js (lines 291-340): the same pass with the red-zero rule, without wrap-around and without the T skip |
| TSignal.SwapEntries | signals.js:2746-2772 | the list keeps its length and its rounds |
| TSignal.SwapEntriesFields | signals.js:2746-2772 | with two different indices in range, the two entries are exchanged and every other stays |
| TSignal.SwapEntriesInvolution | signals.js:2746-2772 | swapping twice with the same indices restores the list |
| TSignal.SwapRounds | signals_ui.js:746-772 | in place, the array becomes the swapped list |
| TSignal.IndicesOf | signals_ui.js:667-672 | exactly the indices of the rounds of the kind, in increasing order |
| TSignal.CollectIndices | signals_ui.js:536-546 | the loop collects the two-pairs indices and the tie indices |
| TSignal.Remove | signals_ui.js:687-689 | deleting from the available ties drops that index and keeps the others |
| TSignal.FirstAbove | signals_ui.js:697-702 | the first available tie after the two-pairs round, in insertion order; none exactly when every available tie lies at or before it |
| TSignal.Closest | signals_ui.js:694-711 | none exactly when no tie is available; the first one after the round when there is one, else the first one |
| TSignal.FindClosest | signals_ui.js:694-711 | the two loops find that tie |
| TSignal.TStep | signals_ui.js:682-720 | one two-pairs index keeps the length and the rounds of the list |
| TSignal.ReorderPermutation | signals_ui.js:682-721 | the reordering only exchanges rounds |
| TSignal.MarkT | signals_ui.js:724-736 | only the marks change; a round is T exactly when it has two pairs and the next round, cyclically, is a tie |
| TSignal.MarkTAll | signals_ui.js:724-736 | when every two-pairs round precedes a tie, exactly the two-pairs rounds are T |
| TSignal.AdjustTSignalPositions | signals_ui.js:678-739 | the rounds are only exchanged, only `isT` changes, and afterwards `isT` holds exactly on two-pairs rounds followed, cyclically, by a tie; signals.js (lines 2678-2741): the same pass in the second copy |
| TSignal.ClearT | signals_ui.js:643-645 | every mark cleared and nothing else changed |
| TSignal.NonC | signals_ui.js:664 | exactly the rounds outside segment C |
| TSignal.OnlyC | signals_ui.js:663 | exactly the segment C rounds |
| TSignal.CToEndPermutation | signals_ui.js:663-665 | moving segment C to the end is a permutation |
| TSignal.CToEndIdentity | signals_ui.js:663-665 | a list whose segment C rounds come last is left as it is |
| TSignal.TSignalPassPermutation | signals_ui.js:663-674 | the pass keeps the rounds up to their T marks |
| TSignal.ApplyTSignalLogicSimple | signals_ui.js:640-675 | an empty list is returned as it is; otherwise the marks are cleared; unequal counts of two-pairs rounds and ties return the list; equal counts return a new list, the T pass of the old one |
| TBalance.CountOfZero | signals_ui.js:490-491 | no hit exactly when no round matches |
| TBalance.CountOfConcat | signals_ui.js:490-491 | counts add over concatenation |
| TBalance.KeptRemovedSplit | signals_ui.js:462-472 | what is kept and what is removed are together the rounds given |
| TBalance.RemovedHits | signals_ui.js:477-506 | only matching rounds are removed, and as many as allowed: `k` or every match when there are fewer |
| TBalance.KeptCount | signals_ui.js:499-506 | the matches left are those beyond the first `k` removed |
| TBalance.KeptCountOther | signals_ui.js:477-483 | rounds another count looks for, and that are not removed, are all kept |
| TBalance.RemoveFromEnd | signals_ui.js:463-506 | the loop from the last round down removes the matching rounds and deletes their positions from the used set |
| TBalance.PhasesBalance | signals_ui.js:474-511 | afterwards no round is a two-pairs tie and there are no more ties than two-pairs rounds, exactly as many when phase 2 acted; kept and removed rounds are together the rounds given |
| TBalance.PhasesRemoveTies | signals_ui.js:479-502 | the removed rounds are ties |
| TBalance.BreakTies | signals_ui.js:474-511 | phases 1 and 2 on segment A and the used set |
| TSignalLogic.FreshCards | signals_ui.js:587-594 | each position once, none excluded, and every non-excluded position of the input kept |
| TSignalLogic.FreshIdentity | signals_ui.js:587-594 | cards of distinct positions, none excluded, pass unchanged |
| TSignalLogic.DedupByPos | signals_ui.js:587-594 | the filter with its `seenPos` set computes those cards |
| TSignalLogic.SortByPos | signals_ui.js:524 | a rearrangement of the cards in ascending position |
| TSignalLogic.TailRound | signals_ui.js:523-528 | the residue round holds the cards in position order, starting at the least position, in segment C |
| TSignalLogic.RecycleStep | signals_ui.js:617-622 | one taken round keeps the recycling ledger and shrinks the leftover |
| TSignalLogic.RecycleRemovedRounds | signals_ui.js:580-638 | the taken rounds are disjoint non-tie rounds of the pool, marked A, and they and the leftover are the pool; fewer than four pool cards take nothing; otherwise the loop ends with fewer than six cards left or after 200 idle attempts |
| TSignalLogic.ApplyTSignalLogic | signals_ui.js:445-578 | the result the parts below describe: kept rounds, recycled rounds, the residue round and the final pass |
| TSignalLogic.PoolIsRemovedAndTail | signals_ui.js:581-594 | on a packed deck the recycling pool is exactly the removed rounds' cards and then the tail |
| TSignalLogic.TLogicOutCards | signals_ui.js:554-577 | the last step keeps the cards |
| TSignalLogic.TLogicConserves | signals_ui.js:445-578 | the returned rounds hold exactly the deck, with distinct positions |
| TSignalLogic.SegmentABalanced | signals_ui.js:474-520 | the segment A left has no two-pairs tie and no more ties than two-pairs rounds |
| JsColour.LegalPairKeepsSignal | script.js:971-981 | an exchange `legalSuitPair` accepts between rounds that meet the heart rule keeps the point value at both places and leaves both rounds meeting it |
| JsSuits.SuitNames | script.js:698-707 | a suit's letter reads as that suit among letters and its symbol among symbols, and neither among the other |
| JsSuits.TrimOfTrimmed | script.js:700 | a text with no white character at either end is its own trim |
| JsSuits.SuitLetterOneChar | script.js:698-707 | on one non-white character, the letter when the upper case is a suit letter, else the symbol's letter, else the upper case |
| JsSuits.SuitLetterOfSuit | script.js:698-707 | a suit's symbol, its letter and its lower-case letter all read as its letter |
| JsSuits.SuitLetterIdempotent | script.js:698-707 | reading the result again changes nothing |
| JsSuits.NormalizeOfSuit | script.js:708-712 | every spelling of a suit normalises to its symbol |
| JsSuits.NormalizeIdempotent | script.js:708-712 | a non-empty normal form normalises to itself |
| JsSuits.OfFaceCount | script.js:746-755 | the cards grouped under a face are as many as that face's multiplicity |
| JsSuits.TallyOfDescribes | script.js:732-755 | counting card by card gives per-face counts, per-suit totals and per-face groups that describe the cards |
| JsSuits.Tally | script.js:732-755 | the three loops compute those tallies |
| JsSuits.SuitTotalsSum | script.js:741-745 | the four suit totals add up to the number of cards |
| JsSuits.SuitCountsOf | script.js:713-762 | the rounds' cards and then the tail's, each position once (the first card seen), tallied per face and per suit |
| JsSuits.ComputeDeckSummary | signals.js:722-761 | nothing for an empty round list; otherwise the tallies of the rounds' distinct cards and how many there are |
| JsSuits.SummaryConsistent | signals.js:722-761 | in a summary the suit totals add up to the card total and each face count is that face's multiplicity |
| ColourSwap.Head | signals.js:1874 | a pattern governs the first four cards, or all when there are fewer |
| ColourSwap.MatchCountFull | signals.js:1876-1879 | every governed back agrees exactly when the match count is full |
| ColourSwap.ScoreRound | signals.js:1872-1881 | matched and deficit add up to the governed cards; the match count is the number of agreeing backs; no deficit exactly when the round follows the pattern; script.js (lines 1110-1118): the same score in the second copy |
| ColourSwap.FirstPattern | signals.js:1836-1837 | BBBR or RRRB; with scores of equal total, RRRB exactly when it matches more |
| ColourSwap.KeepSignalMeans | signals.js:1965-1981 | the test means the round still holds a signal card after the exchange |
| ColourSwap.WillRoundKeepSignal | signals.js:1965-1981 | a signal card among the other cards, or an incoming signal card |
| ColourSwap.SearchOrder | signals.js:1994-2000 | every other round, those after the current one first |
| ColourSwap.Columns | signals.js:2007-2014 | in a semi-locked round the positions from 4 on, in an earlier round 4 and 5, in a later one 0 to 3 |
| ColourSwap.CandidatesOfferable | signals.js:1983-2024 | a place is a candidate exactly when it exists, has the needed back and may be offered: the current round's 4 and 5, or a searchable position of an unlocked other round |
| ColourSwap.RankAllowedPoint | signals.js:1910-1913 | an allowed rank keeps the point value, and a strict one the rank |
| ColourSwap.FindSwap | signals.js:1903-1940 | the first candidate both rules accept, and none exactly when no candidate is accepted |
| ColourSwap.SolveStep | signals.js:1942-1950 | one accepted exchange keeps every property of the solve and settles the position |
| ColourSwap.SolvePattern | signals.js:1886-1960 | every exchange keeps each place's point (and rank when strict) and the deck's cards; success means the round follows the pattern; the signal cards are kept; only allowed places change |
| ColourRun.SameRanksTwoPairs | signals.js:1853-1858 | exchanges that keep every rank keep a two-pair round a two-pair round |
| ColourRun.LockedUnchanged | signals.js:2003 | a fully locked round other than the one solved does not change |
| ColourRun.SettledKept | signals.js:2007-2014 | a settled locked or semi-locked round, other than the one solved, stays settled |
| ColourRun.ProcessRound | signals.js:1826-1851 | nothing for a segment B round, nor unless forced for a locked or semi-locked one; otherwise points, cards and signals are kept and success settles the round |
| ColourRun.SRounds | signals.js:308-320 | the signal rounds of the pass, the wrap-around one included |
| ColourRun.TRounds | signals.js:1815-1820 | exactly the T rounds |
| ColourRun.SolveTRounds | signals.js:1853-1858 | each T round, unlocked while solved, with exact ranks |
| ColourRun.SolveOtherRounds | signals.js:1861-1863 | every round in order, the solved ones semi-locked after |
| ColourRun.RunAutoColorSwapSignal | signals.js:1807-1867 | every place keeps its point value, so every round its result; the deck keeps its cards; the T rounds keep their ranks and their two pairs; the signal cards are kept; every round reported settled follows a pattern |

## Left out

- User interface: DOM rendering, event wiring, hotkeys, the calculator widget, toasts and status panels. Nothing there decides a card.
- Output: Excel/CSV export, `localStorage`, page navigation, console logging, `SWAP_TRACE` and the printing in `main` of go/waa.py. All of this is I/O. The integrity check in `main` is kept (`ShoeRules.CheckIntact`).
- Timing: `async`/`setTimeout` yields in the JavaScript retry loops. They only hand time back to the browser.
- Randomness: `random.shuffle`, `random.choice` and `Math.random` are not modelled as probability. Every shuffle takes its draws as a parameter (`pick(i) <= i`), and every random loop takes an oracle indexed by its iteration.
- `compute_avg_stats` (go/waa.py:984-992): it averages floats and feeds only the printout.
- `_serialize_rounds` and its variant (script.js:763-898): they serialise rounds for the view.
- `Balance.BalanceNonTieSuits`: the float target `total / 3` of go/waa.py:514 is compared exactly, after multiplying both sides by 3. This is an exact rescaling, not an approximation.
- In-place mutation and aliasing of card objects, in go/waa.py's `RoundView` lists and in the JavaScript round arrays that share cards, are modelled on values:
  - the suit and colour rules return rewritten views or rounds instead of changing shared cards;
  - a card is named by its place (round, index) or by its `pos`.
- `ShoeRules.GenerateOrRetry`: returns the shuffled deck as it stood before the suit rules. In the source this is the same list of card objects, so the rules' suit changes show through it; that aliasing is not modelled.
- `ShoeRules.ApplyShoeRules`: keeps the (rank, suit) faces only when no tie suit is given. The degenerate-round break of `enforce_tie_signal` (go/waa.py:477-482) overwrites a suit in place, and the source re-checks afterwards (go/waa.py:1111-1124).
- A tie or signal suit given as a text that names no suit is not modelled: the suits are an `Option<Suit>`.
- `JsSuits.SuitLetter`: upper-casing is modelled for ASCII only. JavaScript `toUpperCase` on other characters, `String(val)` of non-text values and prototype-key lookups are not modelled. The third branch of `_suit_letter` (script.js:705) can never fire and is kept as written.
- `JsSuits.ComputeDeckSummary`: the fallback key for a card without `pos` (signals.js:729-733) is not modelled. Every card in this model has a `pos`. The dictionary keys `"S_A"` are modelled as (suit, rank) pairs.
- `JsRules.DistributeSignalsEvenly`: the closing count of signal cards left outside S (script.js:582-595) only logs. It is not modelled.
- Sorting by `start_index` where some rounds have none: the JavaScript comparator yields `NaN`, so the engine's order is implementation-defined. The model sorts stably by start, with a missing start counting as −1.
- script.js `autoColorSwap`: only `scoreRound` and `legalSuitPair` are modelled. Its `solvePattern`, `sourceCandidates`, round tiers and main loop are not. `legalSuitPair` takes the S set (`compute_sidx_new`) as a parameter.
- `Cut.NormalizeCut`: the cut count arrives as an integer. The DOM input, `Number` parsing and flooring of script.js:2125-2166 are not modelled, and neither are the toasts.
- Null guards: the guards for a missing round, a missing `cards` list or a non-numeric `pos` are not modelled. Examples are `scoreRound`'s `{match: 0, deficit: 99}`, `solvePattern`'s early `false` and `willRoundKeepSignal`'s `false`. Every round here has a card list, and every card has a position.
- `TSignalLogic.ApplyTSignalLogic`: the branch that falls back to `applyTSignalLogicSimple` when `a_rounds` is not an array or `used_pos` not a set (signals_ui.js:446-448) is not modelled. The arguments are typed.
- `SignalsPack.Harvest`: as in the source, its `attempts` counter never increases (signals_ui.js:331-332). The loop ends through `multi_pass_attempts` or by consuming cards, and the model proves that it ends.
- `multi_pass_zero_priority` (red-zero-signal-test.js:178-250) and the page-level drivers `generateShoe`/`analyzeSignals` (red-zero-signal-test.js:528-643) are not part of this model.

## Findings

| source | as written | input that shows it | evidently intended | confidence | as-written member | corrected member |
|---|---|---|---|---|---|---|
| signals.js:195-209 (and red-zero-signal-test.js:68-81) | Banker's third card is drawn and the cursor moves past it, but its point is never added to Banker's total | points [0, 1, 0, 1, 0, 8] dealt from 0: Player 0 and Banker 2 after two cards each; Player draws a 0 and Banker an 8. go/waa.py gives a tie at 0–0; the code as written gives Banker 2–0 | Banker's third card counts toward Banker's total, as in go/waa.py:130-143 and script.js:47-59 | not executed | NestedEngine.BankerThirdCardIgnored | NestedEngine.SimulateRoundNested |

The signals-file members (`Scan` and `JsPack` under the red-zero and signals variants, `JsSegments` for red-zero-signal-test.js, `SignalsPack`, `SignalCards`, `TSignalLogic` and `RedZero`) deal with `SignalsSimulator`, the class as written, because that is what those files run. The corrected class is `SimulateRoundNested`, which is proved to deal exactly as `WaaSimulator`.
