/** `shuffleDeck` of app/page.tsx: a Fisher-Yates shuffle performed on a copy
    of its argument. The random index drawn for position i is supplied by the
    caller as `choice[i]`, with 0 <= choice[i] <= i. */
module Shuffle {
  import opened Cards

  /** `choice` holds one admissible random index per position of an
      n-card deck (no iteration runs with i = 0, so choice[0] is unused). */
  predicate ValidChoices(choice: seq<nat>, n: nat)
  {
    |choice| == n && forall i :: 0 <= i < n ==> choice[i] <= i
  }

  /** The destructuring swap `[d[i], d[j]] = [d[j], d[i]]`. */
  function Swap(s: seq<Card>, i: nat, j: nat): (r: seq<Card>)
    requires i < |s| && j < |s|
    ensures |r| == |s| && r[i] == s[j] && r[j] == s[i]
  {
    s[i := s[j]][j := s[i]]
  }

  /** A swap exchanges two positions and keeps every card. */
  lemma SwapPermutes(s: seq<Card>, i: nat, j: nat)
    requires i < |s| && j < |s|
    ensures |Swap(s, i, j)| == |s| && Swap(s, i, j)[i] == s[j] && Swap(s, i, j)[j] == s[i]
    ensures multiset(Swap(s, i, j)) == multiset(s)
  {
  }

  /** The loop iterations for i = k - 1 down to 1. */
  function Steps(s: seq<Card>, choice: seq<nat>, k: nat): (r: seq<Card>)
    requires k <= |s| && ValidChoices(choice, |s|)
    ensures |r| == |s|
    decreases k
  {
    if k <= 1 then s else Steps(Swap(s, k - 1, choice[k - 1]), choice, k - 1)
  }

  /** The deck that `shuffleDeck` returns for the random indices `choice`. */
  function Shuffled(deck: seq<Card>, choice: seq<nat>): (r: seq<Card>)
    requires ValidChoices(choice, |deck|)
    ensures |r| == |deck|
    ensures |deck| <= 1 ==> r == deck
  {
    Steps(deck, choice, |deck|)
  }

  /** Each iteration only swaps, so the steps permute the deck. */
  lemma {:induction false} StepsPermute(s: seq<Card>, choice: seq<nat>, k: nat)
    requires k <= |s| && ValidChoices(choice, |s|)
    ensures |Steps(s, choice, k)| == |s|
    ensures multiset(Steps(s, choice, k)) == multiset(s)
    decreases k
  {
    if k > 1 {
      SwapPermutes(s, k - 1, choice[k - 1]);
      StepsPermute(Swap(s, k - 1, choice[k - 1]), choice, k - 1);
    }
  }

  /** The shuffled deck is a permutation of the input deck. */
  lemma ShuffledIsPermutation(deck: seq<Card>, choice: seq<nat>)
    requires ValidChoices(choice, |deck|)
    ensures |Shuffled(deck, choice)| == |deck|
    ensures multiset(Shuffled(deck, choice)) == multiset(deck)
  {
    StepsPermute(deck, choice, |deck|);
  }

  /** `shuffleDeck`: copy the deck into a fresh array and run the
      down-counting swap loop on the copy. The argument is a value, so the
      caller's deck is untouched. */
  method ShuffleDeck(deck: seq<Card>, choice: seq<nat>) returns (newDeck: seq<Card>)
    requires ValidChoices(choice, |deck|)
    ensures newDeck == Shuffled(deck, choice)
    ensures |newDeck| == |deck| && multiset(newDeck) == multiset(deck)
  {
    var a := new Card[|deck|](k requires 0 <= k < |deck| => deck[k]);
    assert a[..] == deck;
    var i := |deck| - 1;
    while i > 0
      invariant -1 <= i < |deck| && a.Length == |deck|
      invariant Steps(a[..], choice, i + 1) == Shuffled(deck, choice)
    {
      var j := choice[i];
      ghost var before := a[..];
      a[i], a[j] := a[j], a[i];
      assert a[..] == Swap(before, i, j);
      i := i - 1;
    }
    newDeck := a[..];
    ShuffledIsPermutation(deck, choice);
  }
}
