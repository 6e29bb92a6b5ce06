/** `calculateHandValue` of app/page.tsx: the Blackjack value of a hand,
    aces first counted as 11 and then demoted to 1 one at a time while the
    hand is over 21. */
module Scoring {
  import opened Cards

  const BLACKJACK := 21

  /** What a card adds before any demotion: A = 11, J/Q/K = 10, numerals
      their face value. */
  function Points(v: Value): (p: nat)
    ensures 2 <= p <= 11
    ensures p == 11 <==> v == Ace
  {
    match v
    case Ace => 11
    case Num(n) => n
    case Jack | Queen | King => 10
  }

  /** What a card is worth with every ace counted as 1. */
  function HardPoints(v: Value): nat
  {
    if v == Ace then 1 else Points(v)
  }

  /** The total before demotion (every ace as 11). */
  function RawTotal(hand: seq<Card>): (t: nat)
    ensures 2 * |hand| <= t <= 11 * |hand|
  {
    if hand == [] then 0 else RawTotal(hand[..|hand| - 1]) + Points(hand[|hand| - 1].value)
  }

  /** The number of aces in the hand. */
  function AceCount(hand: seq<Card>): (n: nat)
    ensures n <= |hand|
  {
    if hand == [] then 0 else AceCount(hand[..|hand| - 1]) + (if hand[|hand| - 1].value == Ace then 1 else 0)
  }

  /** The total with every ace counted as 1. */
  function HardTotal(hand: seq<Card>): nat
  {
    if hand == [] then 0 else HardTotal(hand[..|hand| - 1]) + HardPoints(hand[|hand| - 1].value)
  }

  /** Each ace is worth 10 more as 11 than as 1, and every card is worth at
      least 1 when aces count 1. */
  lemma {:induction false} TotalsAgree(hand: seq<Card>)
    ensures RawTotal(hand) == HardTotal(hand) + 10 * AceCount(hand)
    ensures AceCount(hand) <= |hand| <= HardTotal(hand)
  {
    if hand != [] {
      TotalsAgree(hand[..|hand| - 1]);
    }
  }

  /** The number of aces the demotion loop turns from 11 into 1, starting
      from `total` with `aces` aces still counted as 11: the least number
      that brings the total to 21 or below, or all of them if none does. */
  function Demotions(total: int, aces: nat): (k: nat)
    ensures k <= aces
    ensures total - 10 * k <= BLACKJACK || k == aces
    ensures k > 0 ==> total - 10 * (k - 1) > BLACKJACK
    decreases aces
  {
    if total > BLACKJACK && aces > 0 then 1 + Demotions(total - 10, aces - 1) else 0
  }

  /** The value of a hand: the raw total with the least number of aces
      demoted that avoids a bust, or with every ace demoted when none does. */
  function Score(hand: seq<Card>): (r: int)
    ensures HardTotal(hand) <= r <= RawTotal(hand)
    ensures r > BLACKJACK <==> HardTotal(hand) > BLACKJACK
    ensures |hand| <= r
  {
    TotalsAgree(hand);
    RawTotal(hand) - 10 * Demotions(RawTotal(hand), AceCount(hand))
  }

  /** `calculateHandValue`: a for-loop that sums the points and counts the
      aces, then a while-loop that demotes aces while the hand is over 21. */
  method CalculateHandValue(hand: seq<Card>) returns (value: int)
    ensures value == Score(hand)
  {
    value := 0;
    var aces := 0;
    for i := 0 to |hand|
      invariant value == RawTotal(hand[..i]) && aces == AceCount(hand[..i])
    {
      assert hand[..i + 1][..i] == hand[..i];
      var card := hand[i];
      if card.value == Ace {
        aces := aces + 1;
        value := value + 11;
      } else if card.value in [King, Queen, Jack] {
        value := value + 10;
      } else {
        value := value + card.value.n;
      }
    }
    assert hand[..|hand|] == hand;
    ghost var raw, allAces := value, aces;
    while value > BLACKJACK && aces > 0
      invariant 0 <= aces <= allAces
      invariant value == raw - 10 * (allAces - aces)
      invariant (allAces - aces) + Demotions(value, aces) == Demotions(raw, allAces)
    {
      value := value - 10;
      aces := aces - 1;
    }
  }

  /** The returned value is the best one the ace rule allows: no other
      choice of demoted aces gives a larger total that is still 21 or less,
      and a bust value is the smallest total the hand can have. */
  lemma ScoreIsBest(hand: seq<Card>, k: nat)
    requires k <= AceCount(hand)
    ensures RawTotal(hand) - 10 * k <= BLACKJACK ==> RawTotal(hand) - 10 * k <= Score(hand)
    ensures Score(hand) > BLACKJACK ==> Score(hand) == HardTotal(hand) <= RawTotal(hand) - 10 * k
  {
    TotalsAgree(hand);
  }

  /** Appending a card adds its points, and one ace if it is an ace. */
  lemma AppendCard(hand: seq<Card>, c: Card)
    ensures RawTotal(hand + [c]) == RawTotal(hand) + Points(c.value)
    ensures HardTotal(hand + [c]) == HardTotal(hand) + HardPoints(c.value)
    ensures AceCount(hand + [c]) == AceCount(hand) + (if c.value == Ace then 1 else 0)
  {
    assert (hand + [c])[..|hand|] == hand;
  }

  /** Whether a card is an ace, as the counter `aces` sees it. */
  function AceOf(c: Card): nat
  {
    if c.value == Ace then 1 else 0
  }

  /** The totals of a two-card hand, card by card. */
  lemma TwoCardTotals(a: Card, b: Card)
    ensures RawTotal([a, b]) == Points(a.value) + Points(b.value)
    ensures AceCount([a, b]) == AceOf(a) + AceOf(b)
  {
    AppendCard([], a);
    AppendCard([a], b);
    assert [a] + [b] == [a, b];
  }

  /** The totals of a three-card hand, card by card. */
  lemma ThreeCardTotals(a: Card, b: Card, c: Card)
    ensures RawTotal([a, b, c]) == Points(a.value) + Points(b.value) + Points(c.value)
    ensures AceCount([a, b, c]) == AceOf(a) + AceOf(b) + AceOf(c)
  {
    TwoCardTotals(a, b);
    AppendCard([a, b], c);
    assert [a, b] + [c] == [a, b, c];
  }

  /** The totals of a four-card hand, card by card. */
  lemma FourCardTotals(a: Card, b: Card, c: Card, d: Card)
    ensures RawTotal([a, b, c, d]) == Points(a.value) + Points(b.value) + Points(c.value) + Points(d.value)
    ensures AceCount([a, b, c, d]) == AceOf(a) + AceOf(b) + AceOf(c) + AceOf(d)
  {
    ThreeCardTotals(a, b, c);
    AppendCard([a, b, c], d);
    assert [a, b, c] + [d] == [a, b, c, d];
  }

  /** Two cards never bust: two aces count 12, anything else at most 21. */
  lemma TwoCardsNeverBust(a: Card, b: Card)
    ensures Score([a, b]) <= BLACKJACK
  {
    TwoCardTotals(a, b);
  }

  /** A+K = 21: the ace keeps its 11. */
  lemma SoftTwentyOne(s1: Suit, s2: Suit)
    ensures Score([Card(s1, Ace), Card(s2, King)]) == 21
  {
    TwoCardTotals(Card(s1, Ace), Card(s2, King));
    assert Demotions(21, 1) == 0;
  }

  /** A+A+9 = 21: one ace is demoted, the other stays 11. The suits are
      arbitrary, so this covers the hands of two different aces. */
  lemma OneAceDemoted(s1: Suit, s2: Suit, s3: Suit)
    ensures Score([Card(s1, Ace), Card(s2, Ace), Card(s3, Num(9))]) == 21
  {
    ThreeCardTotals(Card(s1, Ace), Card(s2, Ace), Card(s3, Num(9)));
    assert Demotions(31, 2) == 1 + Demotions(21, 1) == 1;
  }

  /** A+A+A+9 = 12: two demotions still leave 22, so all three aces are
      demoted. The suits are arbitrary, so this covers three different aces. */
  lemma AllAcesDemoted(s1: Suit, s2: Suit, s3: Suit, s4: Suit)
    ensures Score([Card(s1, Ace), Card(s2, Ace), Card(s3, Ace), Card(s4, Num(9))]) == 12
  {
    FourCardTotals(Card(s1, Ace), Card(s2, Ace), Card(s3, Ace), Card(s4, Num(9)));
    assert Demotions(42, 3) == 1 + Demotions(32, 2) == 2 + Demotions(22, 1) == 3;
  }

  /** K+Q+2 = 22: a bust value is reported as it is. */
  lemma BustReported(s1: Suit, s2: Suit, s3: Suit)
    ensures Score([Card(s1, King), Card(s2, Queen), Card(s3, Num(2))]) == 22
  {
    ThreeCardTotals(Card(s1, King), Card(s2, Queen), Card(s3, Num(2)));
    assert Demotions(22, 0) == 0;
  }
}
