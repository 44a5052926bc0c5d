/** resultsToObject: how many times each tier occurs in a run's results,
    and the total number of draws. */
module Tallies {
  import opened Rarities

  /** The count columns of the report (the percentage strings are not
      modelled). */
  datatype Tally = Tally(ur: nat, sr: nat, r: nat, n: nat, total: nat)

  /** results.filter((r) => r === t): the matching elements, in order. */
  function Filter(results: seq<Rarity>, t: Rarity): (f: seq<Rarity>)
    ensures forall i :: 0 <= i < |f| ==> f[i] == t
    ensures |f| == multiset(results)[t]
    ensures |f| <= |results|
  {
    if results == [] then []
    else
      assert results == [results[0]] + results[1..];
      (if results[0] == t then [results[0]] else []) + Filter(results[1..], t)
  }

  /** Every element is one of the four tiers, so their multiplicities add up
      to the length. */
  lemma {:induction false} MultiplicitiesSum(s: seq<Rarity>)
    ensures multiset(s)[UR] + multiset(s)[SR] + multiset(s)[R] + multiset(s)[N] == |s|
  {
    if s != [] {
      assert s == [s[0]] + s[1..];
      assert multiset(s) == multiset{s[0]} + multiset(s[1..]);
      MultiplicitiesSum(s[1..]);
      match s[0]
      case UR => assert multiset{s[0]}[UR] == 1;
      case SR => assert multiset{s[0]}[SR] == 1;
      case R => assert multiset{s[0]}[R] == 1;
      case N => assert multiset{s[0]}[N] == 1;
    }
  }

  /** resultsToObject, count columns: each tier's count is its number of
      occurrences, and the four counts add up to the total (合計). */
  function ResultsToObject(results: seq<Rarity>): (t: Tally)
    ensures t.ur == multiset(results)[UR]
    ensures t.sr == multiset(results)[SR]
    ensures t.r == multiset(results)[R]
    ensures t.n == multiset(results)[N]
    ensures t.total == |results|
    ensures t.ur + t.sr + t.r + t.n == t.total
  {
    MultiplicitiesSum(results);
    Tally(|Filter(results, UR)|, |Filter(results, SR)|, |Filter(results, R)|,
          |Filter(results, N)|, |results|)
  }

  /** Tallying two runs back to back adds their counts column by column. */
  lemma TallyAppend(a: seq<Rarity>, b: seq<Rarity>)
    ensures ResultsToObject(a + b).ur == ResultsToObject(a).ur + ResultsToObject(b).ur
    ensures ResultsToObject(a + b).sr == ResultsToObject(a).sr + ResultsToObject(b).sr
    ensures ResultsToObject(a + b).r == ResultsToObject(a).r + ResultsToObject(b).r
    ensures ResultsToObject(a + b).n == ResultsToObject(a).n + ResultsToObject(b).n
    ensures ResultsToObject(a + b).total == ResultsToObject(a).total + ResultsToObject(b).total
  {
    assert multiset(a + b) == multiset(a) + multiset(b);
  }
}
