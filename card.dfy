/** The Card class: drawing rarities from the random source, the in-place
    Fisher–Yates reordering, and the 4-card set with its pity guarantee
    (at least one card is SR or above). */
module Cards {
  import opened Rarities
  import Entropy

  /** The rarity getCardRarities yields when it reads stream position `k`:
      getRandomInt(1, 1000) is 1 + (value mod 999), then classified. */
  function RarityAt(values: nat -> nat, k: nat): Rarity {
    Classify(DRAW_MIN + values(k) % (DRAW_MAX + 1 - DRAW_MIN))
  }

  /** The bands in terms of the stream value v read at `k`: of the 999
      residues of v mod 999, 70 give UR, 368 SR, 250 R and 311 N. */
  lemma RarityAtBands(values: nat -> nat, k: nat)
    ensures RarityAt(values, k) == UR <==> values(k) % 999 < 70
    ensures RarityAt(values, k) == SR <==> 70 <= values(k) % 999 < 438
    ensures RarityAt(values, k) == R <==> 438 <= values(k) % 999 < 688
    ensures RarityAt(values, k) == N <==> 688 <= values(k) % 999
  {
  }

  /** Some position at or after `p` yields an SR-or-above card. */
  ghost predicate SROrAboveFrom(values: nat -> nat, p: nat) {
    exists k: nat :: p <= k && IsSROrAbove(RarityAt(values, k))
  }

  /** The assumption under which the pity redraw loop ends: wherever the
      stream stands, an SR-or-above draw is still to come. */
  ghost predicate PityTerminates(src: Entropy.Source) {
    forall p: nat :: SROrAboveFrom(src.values, p)
  }

  /** getRandomInt(min, max) = floor(random * (max - min) + min): an integer
      in [min, max), the upper bound excluded. Math.ceil and Math.floor on
      the integer arguments change nothing. */
  method GetRandomInt(src: Entropy.Source, min: int, max: int) returns (v: int)
    requires min < max
    modifies src
    ensures min <= v < max
    ensures v == min + src.values(old(src.next)) % (max - min)
    ensures src.next == old(src.next) + 1
  {
    var r := src.Below(max - min);
    v := min + r;
  }

  /** getCardRarities: one draw in [1, 999], classified into a tier. */
  method GetCardRarities(src: Entropy.Source) returns (r: Rarity)
    modifies src
    ensures r == RarityAt(src.values, old(src.next))
    ensures src.next == old(src.next) + 1
  {
    var n := GetRandomInt(src, 1, 1000);
    assert DRAW_MIN <= n <= DRAW_MAX;
    r := Classify(n);
  }

  /** `s` with the entries at `i` and `j` exchanged. */
  function Swap<T>(s: seq<T>, i: nat, j: nat): (t: seq<T>)
    requires i < |s| && j < |s|
    ensures |t| == |s| && t[i] == s[j] && t[j] == s[i]
    ensures forall k :: 0 <= k < |s| && k != i && k != j ==> t[k] == s[k]
    ensures multiset(t) == multiset(s)
  {
    s[i := s[j]][j := s[i]]
  }

  /** The number of swaps randomizeArray makes on a list of length `n`: one
      for each index from n - 1 down to 1. */
  function Steps(n: nat): nat {
    if n == 0 then 0 else n - 1
  }

  /** Swap indices for a list of length `n`, in loop order: step k works at
      index n - 1 - k and swaps it with an index in [0, n - 1 - k]. */
  predicate SwapsFit(rs: seq<nat>, n: nat) {
    |rs| <= Steps(n) && forall k :: 0 <= k < |rs| ==> rs[k] < n - k
  }

  /** The Fisher–Yates pass of randomizeArray after the steps `rs`: step k
      exchanges the entries at n - 1 - k and rs[k]. */
  function FisherYates<T>(s: seq<T>, rs: seq<nat>): (t: seq<T>)
    requires SwapsFit(rs, |s|)
    ensures |t| == |s|
    decreases |rs|
  {
    if rs == [] then s
    else
      var k := |rs| - 1;
      assert SwapsFit(rs[..k], |s|) by {
        forall j | 0 <= j < k ensures rs[..k][j] < |s| - j {
          assert rs[..k][j] == rs[j];
        }
      }
      Swap(FisherYates(s, rs[..k]), |s| - 1 - k, rs[k])
  }

  /** The pass only reorders: it keeps every element with its multiplicity. */
  lemma {:induction false} FisherYatesPermutes<T>(s: seq<T>, rs: seq<nat>)
    requires SwapsFit(rs, |s|)
    ensures multiset(FisherYates(s, rs)) == multiset(s)
    decreases |rs|
  {
    if rs != [] {
      var k := |rs| - 1;
      assert SwapsFit(rs[..k], |s|) by {
        forall j | 0 <= j < k ensures rs[..k][j] < |s| - j {
          assert rs[..k][j] == rs[j];
        }
      }
      FisherYatesPermutes(s, rs[..k]);
    }
  }

  /** The swap index of step j for a list of length `n` when the pass
      starts at stream position `p`: floor(random * (n - j)), read at p + j. */
  function SwapAt(values: nat -> nat, p: nat, n: nat, j: nat): (r: nat)
    requires j < n
    ensures r < n - j
  {
    values(p + j) % (n - j)
  }

  /** SwapAt with the stream position p + j given as `at` and the bound
      n - j as `b`. It states nothing new about SwapAt: it lets the loop of
      RandomizeArray match the value it read against SwapAt's terms. */
  lemma SwapAtBound(values: nat -> nat, p: nat, n: nat, j: nat, at: nat, b: nat)
    requires j < n && at == p + j && b == n - j
    ensures SwapAt(values, p, n, j) == values(at) % b
  {
  }

  /** The first `k` swap indices randomizeArray reads for a list of length
      `n`, starting at stream position `p`. */
  function StreamSwaps(values: nat -> nat, p: nat, n: nat, k: nat): (rs: seq<nat>)
    requires k <= Steps(n)
    ensures |rs| == k
    ensures SwapsFit(rs, n)
  {
    if k == 0 then []
    else StreamSwaps(values, p, n, k - 1) + [SwapAt(values, p, n, k - 1)]
  }

  /** One more step of the pass reads the next swap index. */
  lemma StreamSwapsSnoc(values: nat -> nat, p: nat, n: nat, k: nat)
    requires k < Steps(n)
    ensures StreamSwaps(values, p, n, k + 1) == StreamSwaps(values, p, n, k) + [SwapAt(values, p, n, k)]
  {
  }

  /** One more step of the pass swaps index `j` = n - 1 - |rs| with `r`. */
  lemma FisherYatesSnoc<T>(s: seq<T>, rs: seq<nat>, j: nat, r: nat)
    requires SwapsFit(rs + [r], |s|) && j == |s| - 1 - |rs|
    ensures SwapsFit(rs, |s|) && r <= j
    ensures FisherYates(s, rs + [r]) == Swap(FisherYates(s, rs), j, r)
  {
    var rs' := rs + [r];
    assert rs'[..|rs|] == rs;
    assert rs'[|rs|] == r;
  }

  /** randomizeArray: reorders `a` in place, for i from a.Length - 1 down to
      1 swapping a[i] with a[r], r drawn from [0, i]. */
  method RandomizeArray<T>(a: array<T>, src: Entropy.Source) returns (ghost rs: seq<nat>)
    modifies a, src
    ensures rs == StreamSwaps(src.values, old(src.next), a.Length, Steps(a.Length))
    ensures a[..] == FisherYates(old(a[..]), rs)
    ensures multiset(a[..]) == multiset(old(a[..]))
    ensures src.next == old(src.next) + |rs|
  {
    ghost var p0 := src.next;
    ghost var start := a[..];
    rs := [];
    var i := a.Length - 1;
    while i > 0
      invariant if a.Length == 0 then i == -1 else 0 <= i < a.Length
      invariant |rs| == a.Length - 1 - i
      invariant rs == StreamSwaps(src.values, p0, a.Length, |rs|)
      invariant src.next == p0 + |rs|
      invariant a[..] == FisherYates(start, rs)
      decreases i
    {
      ghost var before, at := a[..], src.next;
      var r := src.Below(i + 1);
      var tmp := a[i];
      a[i] := a[r];
      a[r] := tmp;
      assert a[..] == Swap(before, i, r);
      SwapAtBound(src.values, p0, a.Length, |rs|, at, i + 1);
      StreamSwapsSnoc(src.values, p0, a.Length, |rs|);
      FisherYatesSnoc(start, rs, i, r);
      rs := rs + [r];
      i := i - 1;
    }
    FisherYatesPermutes(start, rs);
  }

  predicate IsCardSet(cs: seq<Rarity>) {
    |cs| == 4 && IncludesSROrAbove(cs)
  }

  /** What one shuffle does, reading the stream from `p0`: `drawn` is the set
      before reordering. Its first three cards are the next three draws. If
      they hold an SR-or-above card the fourth is the next draw; otherwise the
      fourth is the first SR-or-above draw after them, at `fourthAt`, the
      draws skipped on the way being R or N. Then `cs` is `drawn` reordered
      by the three swap indices read after the fourth card. */
  ghost predicate Dealt(values: nat -> nat, p0: nat, drawn: seq<Rarity>, fourthAt: nat, cs: seq<Rarity>) {
    PityRedraw(values, p0, drawn, fourthAt) &&
    cs == FisherYates(drawn, StreamSwaps(values, fourthAt + 1, |drawn|, Steps(|drawn|)))
  }

  /** The four cards before reordering, as `Dealt` describes them. */
  ghost predicate PityRedraw(values: nat -> nat, p0: nat, drawn: seq<Rarity>, fourthAt: nat) {
    |drawn| == 4 &&
    (forall k :: 0 <= k < 3 ==> drawn[k] == RarityAt(values, p0 + k)) &&
    drawn[3] == RarityAt(values, fourthAt) &&
    (IncludesSROrAbove(drawn[..3]) ==> fourthAt == p0 + 3) &&
    (!IncludesSROrAbove(drawn[..3]) ==>
       p0 + 3 <= fourthAt && IsSROrAbove(drawn[3]) &&
       forall k :: p0 + 3 <= k < fourthAt ==> !IsSROrAbove(RarityAt(values, k)))
  }

  /** The pity guarantee: every shuffled set is a card set, and holds the
      same cards as it did before reordering. */
  lemma DealtIsCardSet(values: nat -> nat, p0: nat, drawn: seq<Rarity>, fourthAt: nat, cs: seq<Rarity>)
    requires Dealt(values, p0, drawn, fourthAt, cs)
    ensures IsCardSet(cs)
    ensures multiset(cs) == multiset(drawn)
  {
    assert drawn == drawn[..3] + [drawn[3]];
    IncludesSnoc(drawn[..3], drawn[3]);
    FisherYatesPermutes(drawn, StreamSwaps(values, fourthAt + 1, |drawn|, Steps(|drawn|)));
    IncludesInvariantUnderPermutation(drawn, cs);
  }

  /** The pity redraw of shuffle: draws until the card is SR or above.
      It ends because, under PityTerminates, such a draw is still to come. */
  method RedrawUntilSROrAbove(src: Entropy.Source) returns (lastCard: Rarity, ghost at: nat)
    requires PityTerminates(src)
    modifies src
    ensures old(src.next) <= at && src.next == at + 1
    ensures lastCard == RarityAt(src.values, at) && IsSROrAbove(lastCard)
    ensures forall k :: old(src.next) <= k < at ==> !IsSROrAbove(RarityAt(src.values, k))
  {
    assert SROrAboveFrom(src.values, src.next);
    ghost var target: nat :| src.next <= target && IsSROrAbove(RarityAt(src.values, target));
    ghost var p0 := src.next;
    at := src.next;
    lastCard := GetCardRarities(src);
    while !IncludesSROrAbove([lastCard])
      invariant src.next == at + 1
      invariant lastCard == RarityAt(src.values, at)
      invariant p0 <= at <= target
      invariant forall k :: p0 <= k < at ==> !IsSROrAbove(RarityAt(src.values, k))
      decreases target - at
    {
      assert [lastCard][0] == lastCard;
      at := src.next;
      lastCard := GetCardRarities(src);
    }
    assert [lastCard][0] == lastCard;
  }

  /** The first part of shuffle: three draws, then a fourth, redrawn until
      it is SR or above when the three hold none. */
  method DrawWithPity(src: Entropy.Source) returns (cardRarities: seq<Rarity>, ghost fourthAt: nat)
    requires PityTerminates(src)
    modifies src
    ensures PityRedraw(src.values, old(src.next), cardRarities, fourthAt)
    ensures src.next == fourthAt + 1
  {
    ghost var p0 := src.next;
    cardRarities := [];
    for i := 0 to 3
      invariant |cardRarities| == i
      invariant src.next == p0 + i
      invariant forall k :: 0 <= k < i ==> cardRarities[k] == RarityAt(src.values, p0 + k)
    {
      var r := GetCardRarities(src);
      cardRarities := cardRarities + [r];
    }
    ghost var three := cardRarities;
    if !IncludesSROrAbove(cardRarities) {
      var lastCard;
      lastCard, fourthAt := RedrawUntilSROrAbove(src);
      cardRarities := cardRarities + [lastCard];
    } else {
      fourthAt := src.next;
      var r := GetCardRarities(src);
      cardRarities := cardRarities + [r];
    }
    assert cardRarities[..3] == three;
  }

  class Card {
    /** The current four cards. */
    var cards: seq<Rarity>
    /** The random source every draw reads from. */
    const src: Entropy.Source

    ghost predicate Valid()
      reads this
    {
      IsCardSet(cards) && PityTerminates(src)
    }

    /** new Card(): the field starts empty and is replaced by a first shuffle. */
    constructor (src: Entropy.Source)
      requires PityTerminates(src)
      modifies src
      ensures Valid() && this.src == src
      ensures exists drawn: seq<Rarity>, fourthAt: nat ::
                Dealt(src.values, old(src.next), drawn, fourthAt, cards) && src.next == fourthAt + 4
    {
      cards := [];
      this.src := src;
      new;
      var first, drawn, fourthAt := Shuffle();
    }

    /** shuffle: prepares four cards with the pity guarantee, reorders them
        in place, stores them as the current cards and returns them. */
    method Shuffle() returns (newCards: seq<Rarity>, ghost drawn: seq<Rarity>, ghost fourthAt: nat)
      requires PityTerminates(src)
      modifies this, src
      ensures Dealt(src.values, old(src.next), drawn, fourthAt, newCards)
      ensures src.next == fourthAt + 4
      ensures cards == newCards
      ensures Valid()
    {
      var cardRarities;
      cardRarities, fourthAt := DrawWithPity(src);
      drawn := cardRarities;
      var a := new Rarity[4](k requires 0 <= k < 4 => cardRarities[k]);
      ghost var before := a[..];
      assert before == drawn;
      ghost var rs := RandomizeArray(a, src);
      newCards := a[..];
      cards := newCards;
      DealtIsCardSet(src.values, old(src.next), drawn, fourthAt, newCards);
    }

    /** getCurrentCards: the set stored by the latest shuffle. */
    function GetCurrentCards(): (cs: seq<Rarity>)
      requires Valid()
      reads this
      ensures cs == cards
      ensures IsCardSet(cs)
    {
      cards
    }
  }
}
