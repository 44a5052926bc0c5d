/** The five draw strategies. Each spends the item budget in cycles: it
    draws cards from the current set, in order, paying ITEM_COSTS by
    position, then shuffles; it stops once the budget no longer covers a
    first card, and reports the tally of everything it drew. Every strategy
    is proved to follow the run that Schedule.Play specifies for the policy
    it implements, over the sets the card dealt. */
module Simulations {
  import opened Rarities
  import Entropy
  import opened Cards
  import opened Tallies
  import opened Schedule

  /** The body of shuffleEachCard's loop: the first card, at the first position's cost. */
  method EachCardCycle(cards: seq<Rarity>, result0: seq<Rarity>, quantity0: int)
    returns (result: seq<Rarity>, quantity: int, drawn: nat)
    requires |cards| == |ITEM_COSTS| && quantity0 >= ITEM_COSTS[0]
    ensures drawn == Cycle(EACH_CARD, quantity0, cards)
    ensures result == result0 + cards[..drawn]
    ensures quantity == quantity0 - CostPrefix(drawn)
  {
    result, quantity := result0, quantity0;
    DrawingStart(EACH_CARD, quantity0, cards, result0);
    DrawingNext(EACH_CARD, quantity0, cards, result0, 0, quantity, result);
    result := result + [cards[0]];
    quantity := quantity - ITEM_COSTS[0];
    drawn := 1;
    DrawingEnd(EACH_CARD, quantity0, cards, result0, drawn, quantity, result);
  }

  /** shuffleEachCard: draw one card, then shuffle. */
  method ShuffleEachCard(itemQuantity: int, src: Entropy.Source)
    returns (tally: Tally, ghost deals: seq<seq<Rarity>>, ghost run: Run)
    requires PityTerminates(src)
    modifies src
    // every set it drew from holds four cards, one of them SR or above
    ensures FourEach(deals) && forall c :: 0 <= c < |deals| ==> IsCardSet(deals[c])
    // it did what the policy specifies, one cycle per set, to the end of the budget
    ensures run == Play(EACH_CARD, itemQuantity, deals)
    ensures |run.counts| == |deals| && run.left < ITEM_COSTS[0]
    ensures tally == ResultsToObject(run.recorded)
    // every cycle draws at least one card and no more than the policy allows
    ensures forall c :: 0 <= c < |run.counts| ==> 1 <= run.counts[c] <= EACH_CARD.limit
    // the budget goes on the cards drawn, and never below zero
    ensures itemQuantity == run.left + TotalCost(run.counts)
    ensures itemQuantity >= 0 ==> run.left >= 0
    // one card per 200 items
    ensures itemQuantity >= 0 ==> tally.total == itemQuantity / ITEM_COSTS[0]
  {
    var result: seq<Rarity> := [];
    var quantity := itemQuantity;
    var card := new Card(src);
    deals := [];
    ghost var counts: seq<nat> := [];
    while quantity >= ITEM_COSTS[0]
      invariant card.Valid() && card.src == src
      invariant FourEach(deals) && forall c :: 0 <= c < |deals| ==> IsCardSet(deals[c])
      invariant Play(EACH_CARD, itemQuantity, deals) == Run(counts, result, quantity)
      invariant |counts| == |deals|
      decreases quantity
    {
      var cards := card.GetCurrentCards();
      PlaySnoc(EACH_CARD, itemQuantity, deals, cards, counts, result, quantity);
      var drawn;
      result, quantity, drawn := EachCardCycle(cards, result, quantity);
      deals := deals + [cards];
      counts := counts + [drawn];
      var dealt, unordered, fourthAt := card.Shuffle();
    }
    run := Run(counts, result, quantity);
    PlayConserves(EACH_CARD, itemQuantity, deals);
    if itemQuantity >= 0 {
      EachCardDraws(itemQuantity, deals);
    }
    tally := ResultsToObject(result);
  }

  /** The body of shuffleEveryTwoCards's loop: the first card, then the second if the budget covers it. */
  method EveryTwoCardsCycle(cards: seq<Rarity>, result0: seq<Rarity>, quantity0: int)
    returns (result: seq<Rarity>, quantity: int, drawn: nat)
    requires |cards| == |ITEM_COSTS| && quantity0 >= ITEM_COSTS[0]
    ensures drawn == Cycle(EVERY_TWO_CARDS, quantity0, cards)
    ensures result == result0 + cards[..drawn]
    ensures quantity == quantity0 - CostPrefix(drawn)
  {
    result, quantity := result0, quantity0;
    DrawingStart(EVERY_TWO_CARDS, quantity0, cards, result0);
    DrawingNext(EVERY_TWO_CARDS, quantity0, cards, result0, 0, quantity, result);
    result := result + [cards[0]];
    quantity := quantity - ITEM_COSTS[0];
    drawn := 1;
    if quantity >= ITEM_COSTS[1] {
      DrawingNext(EVERY_TWO_CARDS, quantity0, cards, result0, 1, quantity, result);
      result := result + [cards[1]];
      quantity := quantity - ITEM_COSTS[1];
      drawn := 2;
    }
    DrawingEnd(EVERY_TWO_CARDS, quantity0, cards, result0, drawn, quantity, result);
  }

  /** shuffleEveryTwoCards: draw up to two cards, then shuffle. */
  method ShuffleEveryTwoCards(itemQuantity: int, src: Entropy.Source)
    returns (tally: Tally, ghost deals: seq<seq<Rarity>>, ghost run: Run)
    requires PityTerminates(src)
    modifies src
    // every set it drew from holds four cards, one of them SR or above
    ensures FourEach(deals) && forall c :: 0 <= c < |deals| ==> IsCardSet(deals[c])
    // it did what the policy specifies, one cycle per set, to the end of the budget
    ensures run == Play(EVERY_TWO_CARDS, itemQuantity, deals)
    ensures |run.counts| == |deals| && run.left < ITEM_COSTS[0]
    ensures tally == ResultsToObject(run.recorded)
    // every cycle draws at least one card and no more than the policy allows
    ensures forall c :: 0 <= c < |run.counts| ==> 1 <= run.counts[c] <= EVERY_TWO_CARDS.limit
    // the budget goes on the cards drawn, and never below zero
    ensures itemQuantity == run.left + TotalCost(run.counts)
    ensures itemQuantity >= 0 ==> run.left >= 0
  {
    var result: seq<Rarity> := [];
    var quantity := itemQuantity;
    var card := new Card(src);
    deals := [];
    ghost var counts: seq<nat> := [];
    while quantity >= ITEM_COSTS[0]
      invariant card.Valid() && card.src == src
      invariant FourEach(deals) && forall c :: 0 <= c < |deals| ==> IsCardSet(deals[c])
      invariant Play(EVERY_TWO_CARDS, itemQuantity, deals) == Run(counts, result, quantity)
      invariant |counts| == |deals|
      decreases quantity
    {
      var cards := card.GetCurrentCards();
      PlaySnoc(EVERY_TWO_CARDS, itemQuantity, deals, cards, counts, result, quantity);
      var drawn;
      result, quantity, drawn := EveryTwoCardsCycle(cards, result, quantity);
      deals := deals + [cards];
      counts := counts + [drawn];
      var dealt, unordered, fourthAt := card.Shuffle();
    }
    run := Run(counts, result, quantity);
    PlayConserves(EVERY_TWO_CARDS, itemQuantity, deals);
    tally := ResultsToObject(result);
  }

  /** The body of shuffleEveryThreeCards's loop: each of the first three cards in turn, as far as the budget covers it. */
  method EveryThreeCardsCycle(cards: seq<Rarity>, result0: seq<Rarity>, quantity0: int)
    returns (result: seq<Rarity>, quantity: int, drawn: nat)
    requires |cards| == |ITEM_COSTS| && quantity0 >= ITEM_COSTS[0]
    ensures drawn == Cycle(EVERY_THREE_CARDS, quantity0, cards)
    ensures result == result0 + cards[..drawn]
    ensures quantity == quantity0 - CostPrefix(drawn)
  {
    result, quantity := result0, quantity0;
    DrawingStart(EVERY_THREE_CARDS, quantity0, cards, result0);
    DrawingNext(EVERY_THREE_CARDS, quantity0, cards, result0, 0, quantity, result);
    result := result + [cards[0]];
    quantity := quantity - ITEM_COSTS[0];
    drawn := 1;
    if quantity >= ITEM_COSTS[1] {
      DrawingNext(EVERY_THREE_CARDS, quantity0, cards, result0, 1, quantity, result);
      result := result + [cards[1]];
      quantity := quantity - ITEM_COSTS[1];
      drawn := 2;
    }
    if quantity >= ITEM_COSTS[2] {
      DrawingNext(EVERY_THREE_CARDS, quantity0, cards, result0, 2, quantity, result);
      result := result + [cards[2]];
      quantity := quantity - ITEM_COSTS[2];
      drawn := 3;
    }
    DrawingEnd(EVERY_THREE_CARDS, quantity0, cards, result0, drawn, quantity, result);
  }

  /** shuffleEveryThreeCards: draw up to three cards, then shuffle. */
  method ShuffleEveryThreeCards(itemQuantity: int, src: Entropy.Source)
    returns (tally: Tally, ghost deals: seq<seq<Rarity>>, ghost run: Run)
    requires PityTerminates(src)
    modifies src
    // every set it drew from holds four cards, one of them SR or above
    ensures FourEach(deals) && forall c :: 0 <= c < |deals| ==> IsCardSet(deals[c])
    // it did what the policy specifies, one cycle per set, to the end of the budget
    ensures run == Play(EVERY_THREE_CARDS, itemQuantity, deals)
    ensures |run.counts| == |deals| && run.left < ITEM_COSTS[0]
    ensures tally == ResultsToObject(run.recorded)
    // every cycle draws at least one card and no more than the policy allows
    ensures forall c :: 0 <= c < |run.counts| ==> 1 <= run.counts[c] <= EVERY_THREE_CARDS.limit
    // the budget goes on the cards drawn, and never below zero
    ensures itemQuantity == run.left + TotalCost(run.counts)
    ensures itemQuantity >= 0 ==> run.left >= 0
  {
    var result: seq<Rarity> := [];
    var quantity := itemQuantity;
    var card := new Card(src);
    deals := [];
    ghost var counts: seq<nat> := [];
    while quantity >= ITEM_COSTS[0]
      invariant card.Valid() && card.src == src
      invariant FourEach(deals) && forall c :: 0 <= c < |deals| ==> IsCardSet(deals[c])
      invariant Play(EVERY_THREE_CARDS, itemQuantity, deals) == Run(counts, result, quantity)
      invariant |counts| == |deals|
      decreases quantity
    {
      var cards := card.GetCurrentCards();
      PlaySnoc(EVERY_THREE_CARDS, itemQuantity, deals, cards, counts, result, quantity);
      var drawn;
      result, quantity, drawn := EveryThreeCardsCycle(cards, result, quantity);
      deals := deals + [cards];
      counts := counts + [drawn];
      var dealt, unordered, fourthAt := card.Shuffle();
    }
    run := Run(counts, result, quantity);
    PlayConserves(EVERY_THREE_CARDS, itemQuantity, deals);
    tally := ResultsToObject(result);
  }

  /** The body of shuffleEveryFourCards's loop: each of the four cards in turn, as far as the budget covers it. */
  method EveryFourCardsCycle(cards: seq<Rarity>, result0: seq<Rarity>, quantity0: int)
    returns (result: seq<Rarity>, quantity: int, drawn: nat)
    requires |cards| == |ITEM_COSTS| && quantity0 >= ITEM_COSTS[0]
    ensures drawn == Cycle(EVERY_FOUR_CARDS, quantity0, cards)
    ensures result == result0 + cards[..drawn]
    ensures quantity == quantity0 - CostPrefix(drawn)
  {
    result, quantity := result0, quantity0;
    DrawingStart(EVERY_FOUR_CARDS, quantity0, cards, result0);
    DrawingNext(EVERY_FOUR_CARDS, quantity0, cards, result0, 0, quantity, result);
    result := result + [cards[0]];
    quantity := quantity - ITEM_COSTS[0];
    drawn := 1;
    if quantity >= ITEM_COSTS[1] {
      DrawingNext(EVERY_FOUR_CARDS, quantity0, cards, result0, 1, quantity, result);
      result := result + [cards[1]];
      quantity := quantity - ITEM_COSTS[1];
      drawn := 2;
    }
    if quantity >= ITEM_COSTS[2] {
      DrawingNext(EVERY_FOUR_CARDS, quantity0, cards, result0, 2, quantity, result);
      result := result + [cards[2]];
      quantity := quantity - ITEM_COSTS[2];
      drawn := 3;
    }
    if quantity >= ITEM_COSTS[3] {
      DrawingNext(EVERY_FOUR_CARDS, quantity0, cards, result0, 3, quantity, result);
      result := result + [cards[3]];
      quantity := quantity - ITEM_COSTS[3];
      drawn := 4;
    }
    DrawingEnd(EVERY_FOUR_CARDS, quantity0, cards, result0, drawn, quantity, result);
  }

  /** shuffleEveryFourCards: draw up to all four cards, then shuffle. */
  method ShuffleEveryFourCards(itemQuantity: int, src: Entropy.Source)
    returns (tally: Tally, ghost deals: seq<seq<Rarity>>, ghost run: Run)
    requires PityTerminates(src)
    modifies src
    // every set it drew from holds four cards, one of them SR or above
    ensures FourEach(deals) && forall c :: 0 <= c < |deals| ==> IsCardSet(deals[c])
    // it did what the policy specifies, one cycle per set, to the end of the budget
    ensures run == Play(EVERY_FOUR_CARDS, itemQuantity, deals)
    ensures |run.counts| == |deals| && run.left < ITEM_COSTS[0]
    ensures tally == ResultsToObject(run.recorded)
    // every cycle draws at least one card and no more than the policy allows
    ensures forall c :: 0 <= c < |run.counts| ==> 1 <= run.counts[c] <= EVERY_FOUR_CARDS.limit
    // the budget goes on the cards drawn, and never below zero
    ensures itemQuantity == run.left + TotalCost(run.counts)
    ensures itemQuantity >= 0 ==> run.left >= 0
  {
    var result: seq<Rarity> := [];
    var quantity := itemQuantity;
    var card := new Card(src);
    deals := [];
    ghost var counts: seq<nat> := [];
    while quantity >= ITEM_COSTS[0]
      invariant card.Valid() && card.src == src
      invariant FourEach(deals) && forall c :: 0 <= c < |deals| ==> IsCardSet(deals[c])
      invariant Play(EVERY_FOUR_CARDS, itemQuantity, deals) == Run(counts, result, quantity)
      invariant |counts| == |deals|
      decreases quantity
    {
      var cards := card.GetCurrentCards();
      PlaySnoc(EVERY_FOUR_CARDS, itemQuantity, deals, cards, counts, result, quantity);
      var drawn;
      result, quantity, drawn := EveryFourCardsCycle(cards, result, quantity);
      deals := deals + [cards];
      counts := counts + [drawn];
      var dealt, unordered, fourthAt := card.Shuffle();
    }
    run := Run(counts, result, quantity);
    PlayConserves(EVERY_FOUR_CARDS, itemQuantity, deals);
    tally := ResultsToObject(result);
  }

  /** The body of shuffleWhenSROrAboveAppears's loop: each card in turn, as
      far as the budget covers it, until the cards drawn include one that is
      SR or above; `return` stands for the source's `card.shuffle();
      continue;`, the caller shuffling after every cycle. */
  method WhenSROrAboveAppearsCycle(cards: seq<Rarity>, result0: seq<Rarity>, quantity0: int)
    returns (result: seq<Rarity>, quantity: int, drawn: nat)
    requires |cards| == |ITEM_COSTS| && quantity0 >= ITEM_COSTS[0]
    ensures drawn == Cycle(WHEN_SR_OR_ABOVE, quantity0, cards)
    ensures result == result0 + cards[..drawn]
    ensures quantity == quantity0 - CostPrefix(drawn)
  {
    result, quantity := result0, quantity0;
    var tempResult: seq<Rarity> := [];
    DrawingStart(WHEN_SR_OR_ABOVE, quantity0, cards, result0);
    DrawingNext(WHEN_SR_OR_ABOVE, quantity0, cards, result0, 0, quantity, result);
    IncludesSnoc(tempResult, cards[0]);
    result := result + [cards[0]];
    tempResult := tempResult + [cards[0]];
    quantity := quantity - ITEM_COSTS[0];
    drawn := 1;
    if IncludesSROrAbove(tempResult) {
      return;
    }
    if quantity >= ITEM_COSTS[1] {
      DrawingNext(WHEN_SR_OR_ABOVE, quantity0, cards, result0, 1, quantity, result);
      IncludesSnoc(tempResult, cards[1]);
      result := result + [cards[1]];
      tempResult := tempResult + [cards[1]];
      quantity := quantity - ITEM_COSTS[1];
      drawn := 2;
      if IncludesSROrAbove(tempResult) {
        return;
      }
    }
    if quantity >= ITEM_COSTS[2] {
      DrawingNext(WHEN_SR_OR_ABOVE, quantity0, cards, result0, 2, quantity, result);
      IncludesSnoc(tempResult, cards[2]);
      result := result + [cards[2]];
      tempResult := tempResult + [cards[2]];
      quantity := quantity - ITEM_COSTS[2];
      drawn := 3;
      if IncludesSROrAbove(tempResult) {
        return;
      }
    }
    if quantity >= ITEM_COSTS[3] {
      DrawingNext(WHEN_SR_OR_ABOVE, quantity0, cards, result0, 3, quantity, result);
      result := result + [cards[3]];
      tempResult := tempResult + [cards[3]];
      quantity := quantity - ITEM_COSTS[3];
      drawn := 4;
    }
    if drawn < 4 || !IsSROrAbove(cards[3]) {
      DrawingEnd(WHEN_SR_OR_ABOVE, quantity0, cards, result0, drawn, quantity, result);
    }
  }

  /** shuffleWhenSROrAboveAppears: draw until an SR-or-above card appears or all four are drawn, then shuffle. */
  method ShuffleWhenSROrAboveAppears(itemQuantity: int, src: Entropy.Source)
    returns (tally: Tally, ghost deals: seq<seq<Rarity>>, ghost run: Run)
    requires PityTerminates(src)
    modifies src
    // every set it drew from holds four cards, one of them SR or above
    ensures FourEach(deals) && forall c :: 0 <= c < |deals| ==> IsCardSet(deals[c])
    // it did what the policy specifies, one cycle per set, to the end of the budget
    ensures run == Play(WHEN_SR_OR_ABOVE, itemQuantity, deals)
    ensures |run.counts| == |deals| && run.left < ITEM_COSTS[0]
    ensures tally == ResultsToObject(run.recorded)
    // every cycle draws at least one card and no more than the policy allows
    ensures forall c :: 0 <= c < |run.counts| ==> 1 <= run.counts[c] <= WHEN_SR_OR_ABOVE.limit
    // the budget goes on the cards drawn, and never below zero
    ensures itemQuantity == run.left + TotalCost(run.counts)
    ensures itemQuantity >= 0 ==> run.left >= 0
    // within a cycle, every card before the last one drawn is R or N
    ensures forall c, i :: 0 <= c < |run.counts| && 0 <= i && i + 1 < run.counts[c] ==>
              !IsSROrAbove(deals[c][i])
  {
    var result: seq<Rarity> := [];
    var quantity := itemQuantity;
    var card := new Card(src);
    deals := [];
    ghost var counts: seq<nat> := [];
    while quantity >= ITEM_COSTS[0]
      invariant card.Valid() && card.src == src
      invariant FourEach(deals) && forall c :: 0 <= c < |deals| ==> IsCardSet(deals[c])
      invariant Play(WHEN_SR_OR_ABOVE, itemQuantity, deals) == Run(counts, result, quantity)
      invariant |counts| == |deals|
      decreases quantity
    {
      var cards := card.GetCurrentCards();
      PlaySnoc(WHEN_SR_OR_ABOVE, itemQuantity, deals, cards, counts, result, quantity);
      var drawn;
      result, quantity, drawn := WhenSROrAboveAppearsCycle(cards, result, quantity);
      deals := deals + [cards];
      counts := counts + [drawn];
      var dealt, unordered, fourthAt := card.Shuffle();
    }
    run := Run(counts, result, quantity);
    PlayConserves(WHEN_SR_OR_ABOVE, itemQuantity, deals);
    PlayStopsAtSROrAbove(itemQuantity, deals);
    tally := ResultsToObject(result);
  }
}
