/** The four rarity tiers of a card and the fixed classification of a drawn
    integer into a tier. */
module Rarities {

  /** UR is the rarest tier, then SR, R and N. */
  datatype Rarity = UR | SR | R | N

  /** Bounds of the integer draw: getRandomInt(1, 1000) yields 1 .. 999,
      because its upper bound is exclusive. */
  const DRAW_MIN := 1
  const DRAW_MAX := 999

  /** Upper ends of the UR, SR and R bands; everything above is N. */
  const UR_TOP := 70
  const SR_TOP := 438
  const R_TOP := 688

  predicate IsSROrAbove(r: Rarity) {
    r == SR || r == UR
  }

  /** The tier of the drawn integer `n` (getCardRarities without the draw).
      Total: every integer falls in exactly one band. */
  function Classify(n: int): (r: Rarity)
    ensures r == UR <==> n <= UR_TOP
    ensures r == SR <==> UR_TOP < n <= SR_TOP
    ensures r == R <==> SR_TOP < n <= R_TOP
    ensures r == N <==> R_TOP < n
    ensures IsSROrAbove(r) <==> n <= SR_TOP
  {
    if n <= UR_TOP then UR
    else if n <= SR_TOP then SR
    else if n <= R_TOP then R
    else N
  }

  /** The band edges fall between 70/71, 438/439 and 688/689. */
  lemma ClassifyBoundaries()
    ensures Classify(70) == UR && Classify(71) == SR
    ensures Classify(438) == SR && Classify(439) == R
    ensures Classify(688) == R && Classify(689) == N
  {
  }

  /** Every tier can be drawn: each has a witness inside the draw range. */
  lemma EveryTierReachable(t: Rarity)
    ensures exists n :: DRAW_MIN <= n <= DRAW_MAX && Classify(n) == t
  {
    var n := match t
      case UR => DRAW_MIN
      case SR => UR_TOP + 1
      case R => SR_TOP + 1
      case N => DRAW_MAX;
    assert Classify(n) == t;
  }

  /** includesSROrAbove: the list holds an "SR" or a "UR". */
  function IncludesSROrAbove(cards: seq<Rarity>): (b: bool)
    ensures b <==> exists i :: 0 <= i < |cards| && IsSROrAbove(cards[i])
  {
    SR in cards || UR in cards
  }

  /** Reordering a list does not change whether it holds an SR-or-above card. */
  lemma IncludesInvariantUnderPermutation(a: seq<Rarity>, b: seq<Rarity>)
    requires multiset(a) == multiset(b)
    ensures IncludesSROrAbove(a) == IncludesSROrAbove(b)
  {
    assert SR in a <==> SR in multiset(a);
    assert UR in a <==> UR in multiset(a);
    assert SR in b <==> SR in multiset(b);
    assert UR in b <==> UR in multiset(b);
  }

  /** A list with one more card holds an SR-or-above card exactly when the
      shorter list does or the new card is SR or above. */
  lemma IncludesSnoc(first: seq<Rarity>, last: Rarity)
    ensures IncludesSROrAbove(first + [last]) <==> IncludesSROrAbove(first) || IsSROrAbove(last)
  {
    if IncludesSROrAbove(first) {
      var i :| 0 <= i < |first| && IsSROrAbove(first[i]);
      assert (first + [last])[i] == first[i];
    }
    if IsSROrAbove(last) {
      assert (first + [last])[|first|] == last;
    }
    if IncludesSROrAbove(first + [last]) {
      var i :| 0 <= i < |first| + 1 && IsSROrAbove((first + [last])[i]);
      if i < |first| {
        assert (first + [last])[i] == first[i];
      }
    }
  }
}
