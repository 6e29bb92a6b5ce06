/** The card domain of the Blackjack page and the ordered 52-card deck
    (app/page.tsx, the `suits`/`values` tables and `createDeck`). */
module Cards {

  datatype Suit = Spade | Heart | Diamond | Club

  /** The face value printed on a numeral card: '2' .. '10'. */
  type Pip = n: int | 2 <= n <= 10 witness 2

  /** The textual values 'A', '2'..'10', 'J', 'Q', 'K' of the source. */
  datatype Value = Ace | Num(n: Pip) | Jack | Queen | King

  datatype Card = Card(suit: Suit, value: Value)

  /** The `suits` table, in its declared order. */
  const SUITS: seq<Suit> := [Spade, Heart, Diamond, Club]

  /** The `values` table, in its declared order. */
  const VALUES: seq<Value> :=
    [Ace, Num(2), Num(3), Num(4), Num(5), Num(6), Num(7), Num(8), Num(9), Num(10), Jack, Queen, King]

  /** Position of a suit in SUITS. */
  function SuitIndex(s: Suit): (i: nat)
    ensures i < |SUITS| && SUITS[i] == s
  {
    match s
    case Spade => 0
    case Heart => 1
    case Diamond => 2
    case Club => 3
  }

  /** Position of a value in VALUES. */
  function ValueIndex(v: Value): (i: nat)
    ensures i < |VALUES| && VALUES[i] == v
  {
    match v
    case Ace => 0
    case Num(n) => n - 1
    case Jack => 10
    case Queen => 11
    case King => 12
  }

  /** `values.map(value => ({ suit, value }))`: the 13 cards of one suit. */
  function SuitCards(s: Suit): (cards: seq<Card>)
    ensures |cards| == |VALUES|
    ensures forall v :: 0 <= v < |VALUES| ==> cards[v] == Card(s, VALUES[v])
  {
    seq(|VALUES|, v requires 0 <= v < |VALUES| => Card(s, VALUES[v]))
  }

  /** `suits.flatMap(...)`: the suit blocks concatenated in order, 13 cards
      per listed suit. */
  function FlatMapSuits(suits: seq<Suit>): (cards: seq<Card>)
    ensures |cards| == |VALUES| * |suits|
  {
    if suits == [] then [] else SuitCards(suits[0]) + FlatMapSuits(suits[1..])
  }

  /** `createDeck`: the full deck in suit-major order, 52 cards. */
  function CreateDeck(): (deck: seq<Card>)
    ensures |deck| == 52
  {
    FlatMapSuits(SUITS)
  }

  /** The suit-major layout of a flat-mapped suit list: position i holds
      suit i / 13 and value i % 13. */
  lemma {:induction false} FlatMapLayout(suits: seq<Suit>)
    ensures |FlatMapSuits(suits)| == 13 * |suits|
    ensures forall i :: 0 <= i < 13 * |suits| ==>
      FlatMapSuits(suits)[i] == Card(suits[i / 13], VALUES[i % 13])
  {
    if suits != [] {
      FlatMapLayout(suits[1..]);
      var rest := FlatMapSuits(suits[1..]);
      forall i | 0 <= i < 13 * |suits|
        ensures FlatMapSuits(suits)[i] == Card(suits[i / 13], VALUES[i % 13])
      {
        if i >= 13 {
          assert FlatMapSuits(suits)[i] == rest[i - 13];
          assert (i - 13) / 13 == i / 13 - 1 && (i - 13) % 13 == i % 13;
        }
      }
    }
  }

  /** The deck has 52 cards and index 13 * s + v holds (SUITS[s], VALUES[v]). */
  lemma DeckLayout()
    ensures |CreateDeck()| == 52
    ensures forall i :: 0 <= i < 52 ==> CreateDeck()[i] == Card(SUITS[i / 13], VALUES[i % 13])
  {
    FlatMapLayout(SUITS);
  }

  /** A new deck has 52 cards. */
  lemma DeckSize()
    ensures |CreateDeck()| == 52
  {
    FlatMapLayout(SUITS);
  }

  /** Every card of the domain occurs in the deck. */
  lemma DeckIsComplete(c: Card)
    ensures c in CreateDeck()
  {
    DeckLayout();
    var i := 13 * SuitIndex(c.suit) + ValueIndex(c.value);
    assert i / 13 == SuitIndex(c.suit) && i % 13 == ValueIndex(c.value);
    assert CreateDeck()[i] == c;
  }

  /** SuitIndex inverts SUITS. */
  lemma SuitIndexInverts(k: nat)
    requires k < |SUITS|
    ensures SuitIndex(SUITS[k]) == k
  {
  }

  /** ValueIndex inverts VALUES. */
  lemma ValueIndexInverts(k: nat)
    requires k < |VALUES|
    ensures ValueIndex(VALUES[k]) == k
  {
  }

  /** The card at position i of the deck has suit index i / 13 and value
      index i % 13, so position and card determine each other. */
  lemma DeckPositionOf(i: nat)
    requires i < 52
    ensures |CreateDeck()| == 52
    ensures 13 * SuitIndex(CreateDeck()[i].suit) + ValueIndex(CreateDeck()[i].value) == i
  {
    DeckLayout();
    SuitIndexInverts(i / 13);
    ValueIndexInverts(i % 13);
  }

  /** No card occurs at two positions of the deck. */
  lemma DeckIsDistinct()
    ensures forall i, j :: 0 <= i < j < |CreateDeck()| ==> CreateDeck()[i] != CreateDeck()[j]
  {
    DeckSize();
    forall i, j | 0 <= i < j < 52 ensures CreateDeck()[i] != CreateDeck()[j] {
      DeckPositionOf(i);
      DeckPositionOf(j);
    }
  }

  /** A sequence without repeated elements holds each of its elements once. */
  lemma {:induction false} DistinctCountsOnce<T>(s: seq<T>, x: T)
    requires forall i, j :: 0 <= i < j < |s| ==> s[i] != s[j]
    ensures multiset(s)[x] == if x in s then 1 else 0
  {
    if s != [] {
      assert s == [s[0]] + s[1..];
      DistinctCountsOnce(s[1..], x);
      if x == s[0] {
        assert x !in s[1..];
      }
    }
  }

  /** `createDeck` yields each (suit, value) pair exactly once. */
  lemma DeckHoldsEachCardOnce(c: Card)
    ensures |CreateDeck()| == 52
    ensures multiset(CreateDeck())[c] == 1
  {
    DeckLayout();
    DeckIsDistinct();
    DeckIsComplete(c);
    DistinctCountsOnce(CreateDeck(), c);
  }

  /** A collection of cards holding every card exactly once. */
  ghost predicate IsFullDeck(m: multiset<Card>)
  {
    forall c: Card :: m[c] == 1
  }

  /** `createDeck` yields each (suit, value) pair exactly once. */
  lemma NewDeckIsFull()
    ensures IsFullDeck(multiset(CreateDeck()))
  {
    forall c: Card ensures multiset(CreateDeck())[c] == 1 {
      DeckHoldsEachCardOnce(c);
    }
  }

  /** Any full deck is the new deck up to order, so it has 52 cards. */
  lemma FullDeckSize(m: multiset<Card>)
    requires IsFullDeck(m)
    ensures m == multiset(CreateDeck())
    ensures |m| == 52
  {
    NewDeckIsFull();
    DeckSize();
  }
}
