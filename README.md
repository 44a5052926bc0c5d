# Card-flipping gacha simulator, modelled in Dafny

The program simulates a card-flipping gacha. A `Card` holds four cards whose
rarities (UR, SR, R, N) are drawn at random. Each set is guaranteed at least
one card that is SR or above: when the first three hold none, the fourth is
drawn again and again until it is one. The set is then shuffled in place
(Fisher–Yates). Five strategies spend an item budget flipping the cards of the
current set in order. Position k costs `ITEM_COSTS[k]` = 200, 210, 220 or 230.
After each cycle the strategy reshuffles:

- after one card;
- after two;
- after three;
- after all four;
- or as soon as an SR-or-above card appears.

Each strategy returns a tally of the rarities it drew.

The model is split into these modules:

- `Rarities` (`rarity.dfy`): the tiers and the classification of a drawn
  integer. It also holds `includesSROrAbove`.
- `Entropy` (`entropy.dfy`): the random source. `Math.random()` is an oracle,
  a fixed but arbitrary stream of naturals read one per call.
  `floor(random * n)` is the next value mod n. Every sequence of in-range
  results comes from some stream, so every run of the program is covered.
- `Cards` (`card.dfy`): `getRandomInt`, `getCardRarities`, `randomizeArray`
  (in place on an `array`, proved against the pure pass `FisherYates`) and the
  class `Card` with `shuffle` and `getCurrentCards`. `Dealt` states exactly
  which set a shuffle produces from the stream.
- `Tallies` (`tally.dfy`): the count columns of `resultsToObject`.
- `Schedule` (`schedule.dfy`): the specification shared by the strategies.
  - `Cycle` is how many cards one cycle draws from a set with a given budget.
  - `Play` is what a whole run records for the sequence of sets dealt to it.
  - Around them are lemmas on budget conservation, cycle sizes and stopping.
- `Simulations` (`simulations.dfy`): the five strategies as imperative
  methods with the source's loop and if-chains. Each one's loop body is a
  cycle method proved equal to `Cycle`. Each strategy is proved to do what
  `Play` specifies over the sets it was dealt, and to return
  `resultsToObject` of everything it drew.

### Where the code and its description differ

- The model follows the code. `getRandomInt(1, 1000)` computes
  `floor(random * 999 + 1)`, so the classified integer lies in [1, 999],
  not [1, 1000]. Since 1000 would be N either way, the tiers' bands are
  unaffected: UR 1–70, SR 71–438, R 439–688, N 689–999.
- The pity redraw loop has no bound in the code. The model proves it ends
  under the assumption `PityTerminates`, which says the random stream never
  stops producing SR-or-above draws. With a true random source this holds
  with probability 1. Every member that can reach the pity redraw requires
  it: `Cards.RedrawUntilSROrAbove`, `Cards.DrawWithPity`, `Cards.Card.Shuffle`,
  the `Cards.Card` constructor and the five strategies. `Cards.GetRandomInt`
  and `Cards.GetCardRarities` draw without it.

## Model

| member | source | states |
|---|---|---|
| Rarities.Classify | index.ts:26-37 | each tier is returned exactly for its band of the draw (≤70 UR, 71–438 SR, 439–688 R, above 688 N); the card is SR or above exactly when the draw is at most 438 |
| Rarities.ClassifyBoundaries | index.ts:28-35 | 70/71, 438/439 and 688/689 fall on either side of the band edges |
| Rarities.EveryTierReachable | index.ts:27-35 | every tier is produced by some draw in the range [1, 999] |
| Rarities.IncludesSROrAbove | index.ts:57-59 | true exactly when some card of the list is SR or UR |
| Rarities.IncludesInvariantUnderPermutation | index.ts:57-59 | reordering a list does not change whether it holds an SR-or-above card |
| Rarities.IncludesSnoc | index.ts:71-76 | a list with one more card holds an SR-or-above card iff the shorter list does or the new card is one |
| Entropy.Source.Below | index.ts:19 | `floor(random * n)` is in [0, n), is the next stream value mod n, and advances the stream by one |
| Cards.GetRandomInt | index.ts:16-20 | the result is in [min, max), max excluded, read from the next stream value |
| Cards.GetCardRarities | index.ts:26-37 | the tier is that of the next draw, in [1, 999] |
| Cards.RarityAt | index.ts:27-36 | the tier getCardRarities yields from the stream value at a given position: `getRandomInt(1, 1000)`, which is 1 plus the value mod 999, then classified |
| Cards.RarityAtBands | index.ts:27-36 | in terms of the stream value v, the tier is UR when v mod 999 < 70, SR when it is in [70, 438), R in [438, 688), N from 688: 70, 368, 250 and 311 of the 999 residues |
| Cards.Swap | index.ts:46-48 | exchanges two entries, keeps every other entry and the multiset |
| Cards.FisherYates | index.ts:44-49 | the pure pass of randomizeArray for given swap indices; keeps the length |
| Cards.FisherYatesPermutes | index.ts:44-49 | the pass is a permutation: the multiset is unchanged |
| Cards.StreamSwaps | index.ts:45 | the swap indices the pass reads from the stream; step k's index lies in [0, n-1-k] |
| Cards.RandomizeArray | index.ts:43-50 | on the array in place, it performs exactly the Fisher–Yates pass whose indices it reads from the stream, one read per index from length-1 down to 1; the array ends a permutation of its old contents |
| Cards.PityRedraw | index.ts:66-79 | the four cards before reordering: three draws at p, p+1, p+2, then a fourth at p+3 when the three hold an SR-or-above card, otherwise at the first SR-or-above draw from p+3 on, every draw skipped being R or N |
| Cards.Dealt | index.ts:65-84 | the set one shuffle deals from a stream position: the `PityRedraw` cards reordered by the Fisher–Yates pass whose indices are read right after the fourth card |
| Cards.DealtIsCardSet | index.ts:65-84 | every shuffled set has four cards and holds an SR-or-above card, with the same cards as before reordering |
| Cards.RedrawUntilSROrAbove | index.ts:71-76 | the redraw ends on the first SR-or-above draw; every draw it skipped was R or N |
| Cards.DrawWithPity | index.ts:66-79 | three draws then a fourth: the next draw if the three include SR or above, otherwise the first SR-or-above draw after them |
| Cards.Card.Shuffle | index.ts:65-84 | the new set is the dealt set `Dealt` describes from the stream (three draws, pity fourth, Fisher–Yates reordering); it is stored as the current cards and returned; the card stays valid |
| Cards.Card.constructor | index.ts:6-8 | a new card holds a valid four-card set: the one `Dealt` describes from the stream where it stood, the stream left just after that shuffle's reads |
| Cards.Card.GetCurrentCards | index.ts:90-92 | returns the stored set, which has four cards with an SR-or-above one |
| Tallies.Filter | index.ts:96-99 | the filtered list holds only the wanted tier, as many times as it occurs |
| Tallies.MultiplicitiesSum | index.ts:96-119 | the four tiers' counts add up to the length of the results |
| Tallies.ResultsToObject | index.ts:95-122 | each count is the tier's number of occurrences; the total is the number of draws and equals the sum of the counts |
| Tallies.TallyAppend | index.ts:95-99 | tallying two result lists back to back adds their counts column by column |
| Schedule.CostPrefix | index.ts:125 | drawing m positions costs at least 200 per card |
| Schedule.DrawsFrom | index.ts:132-291 | a cycle from position j never passes the fourth position or the strategy's limit |
| Schedule.DrawsFromPaid | index.ts:132-291 | the budget covers every position a cycle draws |
| Schedule.DrawsFromStops | index.ts:132-291 | a cycle stops short only when the budget does not cover the next position or right after an SR-or-above card |
| Schedule.DrawsFromNoEarlySR | index.ts:250-285 | a stopping strategy draws nothing after an SR-or-above card |
| Schedule.Cycle | index.ts:132-291 | a cycle draws at most the strategy's limit, and at least one card when the budget covers the first |
| Schedule.CycleSpec | index.ts:246-287 | a cycle pays for every card it draws; it ends before the limit only for want of budget or, when stopping, after an SR-or-above card; a stopping cycle draws no SR-or-above card before its last |
| Schedule.Step | index.ts:132-291 | one pass of a strategy's outer loop: with at least 200 left it draws a `Cycle` from the current set, records those cards and pays for them; otherwise the run is over |
| Schedule.StepExtends | index.ts:132-291 | a pass adds a cycle exactly when the budget covers a first card, and is the identity otherwise; it only extends the counts and the recorded cards, and never adds to the budget |
| Schedule.Play | index.ts:132-291 | a whole run over the sets dealt at the start of each pass, one `Step` per set: it has at most one cycle per set, and what is left never exceeds the initial budget |
| Schedule.PlayConserves | index.ts:132-291 | the initial budget is what is left plus the cost of every card drawn; each cycle draws between one card and the limit; what is left is never negative; a run ends early (sets left unused) only with less than 200 left; at least 200 is paid per card drawn |
| Schedule.PlayStopsAtSROrAbove | index.ts:246-287 | in the early-stop strategy, every card drawn in a cycle before its last one is R or N |
| Schedule.EachCardSpends | index.ts:136-141 | in the draw-one strategy, the budget is 200 per card drawn plus what is left |
| Schedule.EachCardDraws | index.ts:132-145 | a complete draw-one run records exactly itemQuantity div 200 cards and leaves itemQuantity mod 200 |
| Schedule.PlaySnoc | index.ts:136-142 | one more pass of the outer loop, with the budget at 200 or more, extends the run by exactly one cycle drawn from the new set |
| Schedule.DrawingStart | index.ts:137 | a cycle starts with nothing drawn |
| Schedule.DrawingNext | index.ts:216-219 | drawing the next affordable position within the limit continues the cycle, or completes it when a stopping strategy has just drawn SR or above |
| Schedule.DrawingEnd | index.ts:226-231 | the cycle is complete once the limit is reached or the next position is unaffordable |
| Simulations.EachCardCycle | index.ts:137-139 | draws Cycle's count of cards (one) from the set, returns that count, appends them and pays for them |
| Simulations.ShuffleEachCard | index.ts:132-145 | does exactly Play for the draw-one policy over the sets dealt, each a valid set; ends with under 200 left; the tally is resultsToObject of the cards drawn and counts itemQuantity div 200 cards |
| Simulations.EveryTwoCardsCycle | index.ts:157-164 | draws Cycle's count of cards (up to two) from the set, in order, returns that count, appends them and pays for them |
| Simulations.ShuffleEveryTwoCards | index.ts:152-170 | does exactly Play for the two-card policy over the sets dealt; conserves the budget, which stays non-negative and ends under 200; the tally is resultsToObject of the cards drawn |
| Simulations.EveryThreeCardsCycle | index.ts:182-194 | draws Cycle's count of cards (up to three) from the set, in order, returns that count, appends them and pays for them |
| Simulations.ShuffleEveryThreeCards | index.ts:177-200 | does exactly Play for the three-card policy over the sets dealt; conserves the budget, which stays non-negative and ends under 200; the tally is resultsToObject of the cards drawn |
| Simulations.EveryFourCardsCycle | index.ts:212-229 | draws Cycle's count of cards (up to four) from the set, in order, returns that count, appends them and pays for them |
| Simulations.ShuffleEveryFourCards | index.ts:207-235 | does exactly Play for the four-card policy over the sets dealt; conserves the budget, which stays non-negative and ends under 200; the tally is resultsToObject of the cards drawn |
| Simulations.WhenSROrAboveAppearsCycle | index.ts:247-285 | draws Cycle's count of cards for the stopping policy and returns that count: in order, as far as the budget goes, up to and including the first SR-or-above card |
| Simulations.ShuffleWhenSROrAboveAppears | index.ts:242-291 | does exactly Play for the stopping policy over the sets dealt; conserves the budget; in each cycle every card before the last drawn is R or N; the tally is resultsToObject of the cards drawn |

## Left out

- The percentage strings of `resultsToObject`, which use floating-point
  rounding and `toFixed`, are not modelled. Neither are the
  `toLocaleString` formatting and the per-tier labels. Only the counts are.
  Because of this, the division by zero on an empty result list does not
  arise in the model.
- `main`, the console output and the fixed budget of 1,000,000,000 are not
  modelled. The strategies take any integer budget.
- The probability distribution of the draws is not modelled: the random
  source is an arbitrary stream. Uniformity of the shuffle and the tier
  probabilities are not stated.
- Cards.Card.Shuffle: the returned array and the stored field are the same
  array object in the source. The model stores a sequence value, so aliasing
  between them is not modelled. No caller in the source mutates either one.
- Cards.RedrawUntilSROrAbove: proved to end only under `PityTerminates`.
  Without that assumption the unbounded loop of the source may not end.
- Simulations.ShuffleEachCard, Simulations.ShuffleEveryTwoCards,
  Simulations.ShuffleEveryThreeCards, Simulations.ShuffleEveryFourCards and
  Simulations.ShuffleWhenSROrAboveAppears do not restate `Dealt` for the sets
  they were dealt. Their ensures say only that each set is a valid card set.
  How each set comes from the stream is stated once for the first set, by the
  `Cards.Card` constructor, and once for each later one, by
  `Cards.Card.Shuffle`. The chain of stream positions from one set to the
  next is not stated.
- Number semantics: JavaScript numbers are doubles. The model uses unbounded
  integers, so precision loss above 2^53 is not modelled. The source's
  budgets stay far below that.
