/** The specification shared by the five draw strategies: the cost schedule,
    what one shuffle cycle draws, and what a whole run records for a given
    sequence of dealt card sets. */
module Schedule {
  import opened Rarities

  /** The item cost of drawing the card at each position of the current set;
      it resets to the first entry after every shuffle. */
  const ITEM_COSTS: seq<nat> := [200, 210, 220, 230]

  /** A strategy: it draws at most `limit` positions of a set, in order, and
      with `stopOnSROrAbove` it ends the cycle right after drawing an SR-or-above card. */
  datatype Policy = Policy(limit: nat, stopOnSROrAbove: bool)

  const EACH_CARD := Policy(1, false)
  const EVERY_TWO_CARDS := Policy(2, false)
  const EVERY_THREE_CARDS := Policy(3, false)
  const EVERY_FOUR_CARDS := Policy(4, false)
  const WHEN_SR_OR_ABOVE := Policy(4, true)

  predicate ValidPolicy(p: Policy) {
    1 <= p.limit <= |ITEM_COSTS|
  }

  /** Every dealt set has four cards. */
  predicate FourEach(deals: seq<seq<Rarity>>) {
    forall c :: 0 <= c < |deals| ==> |deals[c]| == 4
  }

  /** The cost of drawing positions 0 .. m - 1 of one set. */
  function CostPrefix(m: nat): (c: nat)
    requires m <= |ITEM_COSTS|
    ensures c >= 200 * m
  {
    if m == 0 then 0 else CostPrefix(m - 1) + ITEM_COSTS[m - 1]
  }

  /** How many positions from `j` on a cycle draws with budget `q` left:
      position j is drawn when the strategy goes that far and the budget
      covers its cost; after an SR-or-above card a stopping strategy draws no more. */
  function DrawsFrom(p: Policy, q: int, cs: seq<Rarity>, j: nat): (m: nat)
    requires |cs| == |ITEM_COSTS| && j <= |ITEM_COSTS|
    // never past the last position, nor past the strategy's limit
    ensures j + m <= |ITEM_COSTS|
    ensures m > 0 ==> j + m <= p.limit
    decreases |ITEM_COSTS| - j
  {
    if j < p.limit && j < |ITEM_COSTS| && q >= ITEM_COSTS[j] then
      if p.stopOnSROrAbove && IsSROrAbove(cs[j]) then 1
      else 1 + DrawsFrom(p, q - ITEM_COSTS[j], cs, j + 1)
    else 0
  }

  /** The budget covers every position a cycle draws from `j` on. */
  lemma {:induction false} DrawsFromPaid(p: Policy, q: int, cs: seq<Rarity>, j: nat)
    requires |cs| == |ITEM_COSTS| && j <= |ITEM_COSTS|
    ensures var m := DrawsFrom(p, q, cs, j);
      m == 0 || CostPrefix(j + m) - CostPrefix(j) <= q
    decreases |ITEM_COSTS| - j
  {
    if j < p.limit && j < |ITEM_COSTS| && q >= ITEM_COSTS[j] {
      if !(p.stopOnSROrAbove && IsSROrAbove(cs[j])) {
        DrawsFromPaid(p, q - ITEM_COSTS[j], cs, j + 1);
      }
    }
  }

  /** A cycle stops short of the strategy's limit only for want of budget
      for the next position or right after an SR-or-above card. */
  lemma {:induction false} DrawsFromStops(p: Policy, q: int, cs: seq<Rarity>, j: nat)
    requires |cs| == |ITEM_COSTS| && j <= |ITEM_COSTS|
    ensures var m := DrawsFrom(p, q, cs, j);
      j + m < p.limit && j + m < |ITEM_COSTS| ==>
        q - (CostPrefix(j + m) - CostPrefix(j)) < ITEM_COSTS[j + m] ||
        (p.stopOnSROrAbove && m > 0 && IsSROrAbove(cs[j + m - 1]))
    decreases |ITEM_COSTS| - j
  {
    if j < p.limit && j < |ITEM_COSTS| && q >= ITEM_COSTS[j] {
      if !(p.stopOnSROrAbove && IsSROrAbove(cs[j])) {
        DrawsFromStops(p, q - ITEM_COSTS[j], cs, j + 1);
      }
    }
  }

  /** A stopping strategy draws no SR-or-above card before the last one it
      draws from `j` on. */
  lemma {:induction false} DrawsFromNoEarlySR(p: Policy, q: int, cs: seq<Rarity>, j: nat)
    requires |cs| == |ITEM_COSTS| && j <= |ITEM_COSTS|
    ensures var m := DrawsFrom(p, q, cs, j);
      p.stopOnSROrAbove ==> forall i :: j <= i < j + m - 1 ==> !IsSROrAbove(cs[i])
    decreases |ITEM_COSTS| - j
  {
    if j < p.limit && j < |ITEM_COSTS| && q >= ITEM_COSTS[j] {
      if !(p.stopOnSROrAbove && IsSROrAbove(cs[j])) {
        DrawsFromNoEarlySR(p, q - ITEM_COSTS[j], cs, j + 1);
      }
    }
  }

  /** The number of cards one cycle draws from the set `cs` with budget `q`:
      never more than the strategy's limit, and at least one whenever the
      budget covers the first position. */
  function Cycle(p: Policy, q: int, cs: seq<Rarity>): (m: nat)
    requires ValidPolicy(p) && |cs| == |ITEM_COSTS|
    ensures m <= p.limit
    ensures q >= ITEM_COSTS[0] ==> 1 <= m
  {
    DrawsFrom(p, q, cs, 0)
  }

  /** A cycle pays for every card it draws; it ends before the strategy's
      limit only when the budget does not cover the next position or, for the
      stopping strategy, right after an SR-or-above card, and that strategy
      draws no SR-or-above card before the last one of the cycle. */
  lemma CycleSpec(p: Policy, q: int, cs: seq<Rarity>)
    requires ValidPolicy(p) && |cs| == |ITEM_COSTS|
    ensures var m := Cycle(p, q, cs);
      CostPrefix(m) <= q || m == 0
    ensures var m := Cycle(p, q, cs);
      m < p.limit ==>
        q - CostPrefix(m) < ITEM_COSTS[m] ||
        (p.stopOnSROrAbove && m > 0 && IsSROrAbove(cs[m - 1]))
    ensures var m := Cycle(p, q, cs);
      p.stopOnSROrAbove ==> forall i :: 0 <= i < m - 1 ==> !IsSROrAbove(cs[i])
  {
    DrawsFromPaid(p, q, cs, 0);
    DrawsFromStops(p, q, cs, 0);
    DrawsFromNoEarlySR(p, q, cs, 0);
  }

  /** What a run records: the number of cards drawn in each cycle, the
      rarities drawn in order, and the budget left. */
  datatype Run = Run(counts: seq<nat>, recorded: seq<Rarity>, left: int)

  /** One pass of the outer loop of every strategy: while the budget covers a
      first card, draw a cycle from the set just dealt and pay for it; once it
      does not, the run is over and stays as it is. */
  function Step(p: Policy, run: Run, cs: seq<Rarity>): (next: Run)
    requires ValidPolicy(p) && |cs| == |ITEM_COSTS|
  {
    if run.left < ITEM_COSTS[0] then run
    else
      var m := Cycle(p, run.left, cs);
      Run(run.counts + [m], run.recorded + cs[..m], run.left - CostPrefix(m))
  }

  /** A pass draws a cycle exactly when the budget covers a first card; it
      only extends the run, and never adds to the budget. */
  lemma StepExtends(p: Policy, run: Run, cs: seq<Rarity>)
    requires ValidPolicy(p) && |cs| == |ITEM_COSTS|
    ensures run.left >= ITEM_COSTS[0] <==> |Step(p, run, cs).counts| == |run.counts| + 1
    ensures run.left < ITEM_COSTS[0] ==> Step(p, run, cs) == run
    ensures |run.counts| <= |Step(p, run, cs).counts| && Step(p, run, cs).counts[..|run.counts|] == run.counts
    ensures |run.recorded| <= |Step(p, run, cs).recorded| && Step(p, run, cs).recorded[..|run.recorded|] == run.recorded
    ensures Step(p, run, cs).left <= run.left
  {
    if run.left >= ITEM_COSTS[0] {
      var m := Cycle(p, run.left, cs);
      assert (run.counts + [m])[..|run.counts|] == run.counts;
      assert (run.recorded + cs[..m])[..|run.recorded|] == run.recorded;
    }
  }

  /** A whole run from budget `q`, given the sets dealt at the start of each
      pass in turn. */
  function Play(p: Policy, q: int, deals: seq<seq<Rarity>>): (run: Run)
    requires ValidPolicy(p) && FourEach(deals)
    ensures |run.counts| <= |deals|
    ensures run.left <= q
    decreases |deals|
  {
    if deals == [] then Run([], [], q)
    else Step(p, Play(p, q, deals[..|deals| - 1]), deals[|deals| - 1])
  }

  /** The item cost of all cycles of a run. */
  function TotalCost(counts: seq<nat>): (c: nat)
    requires forall c :: 0 <= c < |counts| ==> counts[c] <= |ITEM_COSTS|
  {
    if counts == [] then 0
    else TotalCost(counts[..|counts| - 1]) + CostPrefix(counts[|counts| - 1])
  }

  /** The number of draws over all cycles of a run. */
  function TotalDraws(counts: seq<nat>): nat {
    if counts == [] then 0 else TotalDraws(counts[..|counts| - 1]) + counts[|counts| - 1]
  }

  /** The prefix of a run's dealt sets without the last one. */
  lemma FourEachPrefix(deals: seq<seq<Rarity>>)
    requires FourEach(deals) && deals != []
    ensures FourEach(deals[..|deals| - 1]) && |deals[|deals| - 1]| == 4
  {
    var prefix := deals[..|deals| - 1];
    forall c | 0 <= c < |prefix| ensures |prefix[c]| == 4 {
      assert prefix[c] == deals[c];
    }
  }

  /** Budget conservation: the initial budget is what is left plus the cost of
      every card drawn; every cycle draws between one card and the strategy's
      limit; what is left is never negative; the run ends early only when the
      budget no longer covers a first card; and each recorded card was paid
      for at no less than the first position's cost. */
  lemma {:induction false} PlayConserves(p: Policy, q: int, deals: seq<seq<Rarity>>)
    requires ValidPolicy(p) && FourEach(deals)
    ensures var run := Play(p, q, deals);
      |run.counts| <= |deals| &&
      (forall c :: 0 <= c < |run.counts| ==> 1 <= run.counts[c] <= p.limit) &&
      q == run.left + TotalCost(run.counts) &&
      |run.recorded| == TotalDraws(run.counts) &&
      (q >= 0 ==> run.left >= 0) &&
      (|run.counts| < |deals| ==> run.left < ITEM_COSTS[0]) &&
      (q >= 0 ==> 200 * |run.recorded| <= q - run.left)
    decreases |deals|
  {
    if deals != [] {
      var prefix := deals[..|deals| - 1];
      var cs := deals[|deals| - 1];
      FourEachPrefix(deals);
      var prev := Play(p, q, prefix);
      PlayConserves(p, q, prefix);
      if prev.left >= ITEM_COSTS[0] {
        var m := Cycle(p, prev.left, cs);
        CycleSpec(p, prev.left, cs);
        var run := Run(prev.counts + [m], prev.recorded + cs[..m], prev.left - CostPrefix(m));
        assert Play(p, q, deals) == run;
        assert run.counts[..|run.counts| - 1] == prev.counts;
        forall c | 0 <= c < |run.counts| ensures 1 <= run.counts[c] <= p.limit {
          if c < |prev.counts| { assert run.counts[c] == prev.counts[c]; }
        }
      }
    }
  }

  /** In a run of the stopping strategy, every card recorded in a cycle
      before its last one is R or N: no card is drawn from a set after an
      SR-or-above card of that set. */
  lemma {:induction false} PlayStopsAtSROrAbove(q: int, deals: seq<seq<Rarity>>)
    requires FourEach(deals)
    ensures var run := Play(WHEN_SR_OR_ABOVE, q, deals);
      |run.counts| <= |deals| &&
      (forall c :: 0 <= c < |run.counts| ==> run.counts[c] <= |ITEM_COSTS|) &&
      forall c, i :: 0 <= c < |run.counts| && 0 <= i && i + 1 < run.counts[c] ==>
        !IsSROrAbove(deals[c][i])
    decreases |deals|
  {
    if deals != [] {
      var p := WHEN_SR_OR_ABOVE;
      var prefix := deals[..|deals| - 1];
      var cs := deals[|deals| - 1];
      FourEachPrefix(deals);
      var prev := Play(p, q, prefix);
      PlayStopsAtSROrAbove(q, prefix);
      PlayConserves(p, q, prefix);
      if prev.left >= ITEM_COSTS[0] {
        var m := Cycle(p, prev.left, cs);
        CycleSpec(p, prev.left, cs);
        var run := Run(prev.counts + [m], prev.recorded + cs[..m], prev.left - CostPrefix(m));
        assert Play(p, q, deals) == run;
        forall c | 0 <= c < |run.counts| ensures run.counts[c] <= |ITEM_COSTS| {
          if c < |prev.counts| { assert run.counts[c] == prev.counts[c]; }
        }
        forall c, i | 0 <= c < |run.counts| && 0 <= i && i + 1 < run.counts[c]
          ensures !IsSROrAbove(deals[c][i])
        {
          if c < |prev.counts| {
            assert run.counts[c] == prev.counts[c];
            assert deals[c] == prefix[c];
          } else {
            assert deals[c] == cs;
          }
        }
      }
    }
  }

  /** Along a run of the draw-one-then-shuffle strategy from a non-negative
      budget, every 200 items spent record exactly one card. */
  lemma {:induction false} EachCardSpends(q: int, deals: seq<seq<Rarity>>)
    requires FourEach(deals) && q >= 0
    ensures var run := Play(EACH_CARD, q, deals);
      run.left >= 0 && q == 200 * |run.recorded| + run.left
    decreases |deals|
  {
    if deals != [] {
      var prefix := deals[..|deals| - 1];
      var cs := deals[|deals| - 1];
      FourEachPrefix(deals);
      var prev := Play(EACH_CARD, q, prefix);
      EachCardSpends(q, prefix);
      if prev.left >= ITEM_COSTS[0] {
        assert Cycle(EACH_CARD, prev.left, cs) == 1;
      }
    }
  }

  /** A complete run of the draw-one-then-shuffle strategy records exactly
      one card per 200 items of the budget, and leaves the remainder. */
  lemma EachCardDraws(q: int, deals: seq<seq<Rarity>>)
    requires FourEach(deals) && q >= 0
    requires Play(EACH_CARD, q, deals).left < ITEM_COSTS[0]
    ensures |Play(EACH_CARD, q, deals).recorded| == q / ITEM_COSTS[0]
    ensures Play(EACH_CARD, q, deals).left == q % ITEM_COSTS[0]
  {
    EachCardSpends(q, deals);
  }

  /** One more pass of the outer loop extends the run by one cycle drawn
      from the new set with the budget left so far. */
  lemma PlaySnoc(p: Policy, q0: int, deals: seq<seq<Rarity>>, cs: seq<Rarity>,
                 counts: seq<nat>, recorded: seq<Rarity>, q: int)
    requires ValidPolicy(p) && FourEach(deals) && |cs| == |ITEM_COSTS|
    requires Play(p, q0, deals) == Run(counts, recorded, q)
    requires q >= ITEM_COSTS[0]
    ensures FourEach(deals + [cs])
    ensures var m := Cycle(p, q, cs);
      Play(p, q0, deals + [cs]) == Run(counts + [m], recorded + cs[..m], q - CostPrefix(m))
  {
    var ds := deals + [cs];
    forall c | 0 <= c < |ds| ensures |ds[c]| == 4 {
      if c < |deals| { assert ds[c] == deals[c]; }
    }
    assert ds[..|ds| - 1] == deals;
  }

  /** Partway through a cycle from budget `q` on the set `cs`: `drawn`
      positions are drawn and paid for, `result` is `r0` followed by them,
      and the rest of the cycle draws what the cycle still has to draw. */
  ghost predicate Drawing(p: Policy, q: int, cs: seq<Rarity>, r0: seq<Rarity>,
                          drawn: nat, quantity: int, result: seq<Rarity>)
    requires ValidPolicy(p) && |cs| == |ITEM_COSTS|
  {
    drawn <= |ITEM_COSTS| &&
    quantity == q - CostPrefix(drawn) &&
    result == r0 + cs[..drawn] &&
    Cycle(p, q, cs) == drawn + DrawsFrom(p, quantity, cs, drawn)
  }

  /** A finished cycle: it drew the first `drawn` positions, paid for them,
      and appended them to `r0`. */
  ghost predicate Finished(p: Policy, q: int, cs: seq<Rarity>, r0: seq<Rarity>,
                           drawn: nat, quantity: int, result: seq<Rarity>)
    requires ValidPolicy(p) && |cs| == |ITEM_COSTS|
  {
    drawn <= |ITEM_COSTS| &&
    Cycle(p, q, cs) == drawn &&
    quantity == q - CostPrefix(drawn) &&
    result == r0 + cs[..drawn]
  }

  /** A cycle starts with nothing drawn. */
  lemma DrawingStart(p: Policy, q: int, cs: seq<Rarity>, r0: seq<Rarity>)
    requires ValidPolicy(p) && |cs| == |ITEM_COSTS|
    ensures Drawing(p, q, cs, r0, 0, q, r0)
  {
    assert cs[..0] == [];
  }

  /** Drawing the next position when the strategy goes that far and the
      budget covers it: the cycle goes on, or, for a stopping strategy that
      has just drawn an SR-or-above card, it is finished. */
  lemma DrawingNext(p: Policy, q: int, cs: seq<Rarity>, r0: seq<Rarity>,
                    j: nat, quantity: int, result: seq<Rarity>)
    requires ValidPolicy(p) && |cs| == |ITEM_COSTS|
    requires Drawing(p, q, cs, r0, j, quantity, result)
    requires j < p.limit && quantity >= ITEM_COSTS[j]
    ensures p.stopOnSROrAbove && IsSROrAbove(cs[j]) ==>
              Finished(p, q, cs, r0, j + 1, quantity - ITEM_COSTS[j], result + [cs[j]])
    ensures !(p.stopOnSROrAbove && IsSROrAbove(cs[j])) ==>
              Drawing(p, q, cs, r0, j + 1, quantity - ITEM_COSTS[j], result + [cs[j]])
  {
    assert cs[..j + 1] == cs[..j] + [cs[j]];
  }

  /** The cycle is finished once the strategy's limit is reached or the
      budget does not cover the next position. */
  lemma DrawingEnd(p: Policy, q: int, cs: seq<Rarity>, r0: seq<Rarity>,
                   j: nat, quantity: int, result: seq<Rarity>)
    requires ValidPolicy(p) && |cs| == |ITEM_COSTS|
    requires Drawing(p, q, cs, r0, j, quantity, result)
    requires j == p.limit || (j < |ITEM_COSTS| && quantity < ITEM_COSTS[j])
    ensures Finished(p, q, cs, r0, j, quantity, result)
  {
  }
}
