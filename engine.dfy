/** The game engine of the Blackjack page (app/page.tsx, `Blackjack`): five
    pieces of state and the three handlers `startNewGame`, `hit` and `stand`.
    Each handler's setters take effect together when it returns, so a method
    here assigns the state that is visible afterwards. */
module Engine {
  import opened Cards
  import opened Shuffle
  import opened Scoring

  datatype GameState = Betting | Playing | DealerTurn | GameOver

  const DEALER_STANDS := 17

  const PLAYER_BUSTS := "Player busts! Dealer wins."
  const DEALER_BUSTS := "Dealer busts! Player wins."
  const DEALER_WINS := "Dealer wins!"
  const PLAYER_WINS := "Player wins!"
  const TIE := "It's a tie!"

  /** The outcome table of `stand`, checked top to bottom. */
  function Verdict(playerValue: int, dealerValue: int): (m: string)
    ensures m in {DEALER_BUSTS, DEALER_WINS, PLAYER_WINS, TIE}
    ensures m == DEALER_BUSTS <==> dealerValue > BLACKJACK
    ensures m == DEALER_WINS <==> dealerValue <= BLACKJACK && dealerValue > playerValue
    ensures m == PLAYER_WINS <==> dealerValue <= BLACKJACK && dealerValue < playerValue
    ensures m == TIE <==> dealerValue <= BLACKJACK && dealerValue == playerValue
  {
    if dealerValue > BLACKJACK then DEALER_BUSTS
    else if dealerValue > playerValue then DEALER_WINS
    else if dealerValue < playerValue then PLAYER_WINS
    else TIE
  }

  /** How many cards the dealer takes from the top of `deck`: it draws while
      its hand is under 17, so this stops at the first prefix of the deck
      that lifts the hand to 17 or more (or at the end of the deck). */
  function DealerDraws(hand: seq<Card>, deck: seq<Card>): (k: nat)
    ensures k <= |deck|
    ensures k < |deck| ==> Score(hand + deck[..k]) >= DEALER_STANDS
    decreases |deck|
  {
    if Score(hand) >= DEALER_STANDS || deck == [] then
      assert hand + deck[..0] == hand;
      0
    else
      var k := DealerDraws(hand + [deck[0]], deck[1..]);
      assert k + 1 < |deck| ==> hand + deck[..k + 1] == (hand + [deck[0]]) + deck[1..][..k];
      k + 1
  }

  /** The dealer never draws once at 17 or more: every shorter prefix of
      the cards it takes leaves its hand under 17. */
  lemma {:induction false} DealerDrawsOnlyUnder17(hand: seq<Card>, deck: seq<Card>, j: nat)
    requires j < DealerDraws(hand, deck)
    ensures Score(hand + deck[..j]) < DEALER_STANDS
    decreases |deck|
  {
    if j == 0 {
      assert hand + deck[..j] == hand;
    } else {
      DealerDrawsOnlyUnder17(hand + [deck[0]], deck[1..], j - 1);
      assert hand + deck[..j] == (hand + [deck[0]]) + deck[1..][..j - 1];
    }
  }

  /** A snapshot of the five state fields of the page. */
  datatype Table = Table(
    deck: seq<Card>,
    playerHand: seq<Card>,
    dealerHand: seq<Card>,
    gameState: GameState,
    message: string)

  /** Cards are never duplicated or lost: the deck and both hands together
      hold the 52 cards of a new deck. */
  ghost predicate Conserved(deck: seq<Card>, playerHand: seq<Card>, dealerHand: seq<Card>)
  {
    IsFullDeck(multiset(deck + playerHand + dealerHand))
  }

  /** The engine's invariant. Before the first deal everything is empty;
      afterwards the cards are conserved. While playing, the message is
      empty, the dealer holds its two dealt cards and neither hand has
      busted; a finished round carries one of the five result messages.
      'dealerTurn' is never visible between handlers. */
  ghost predicate Invariant(t: Table)
  {
    && t.gameState != DealerTurn
    && (t.gameState == Betting ==>
          t.deck == [] && t.playerHand == [] && t.dealerHand == [] && t.message == "")
    && (t.gameState != Betting ==> Conserved(t.deck, t.playerHand, t.dealerHand))
    && (t.gameState == Playing ==>
          && t.message == ""
          && |t.dealerHand| == 2
          && Score(t.playerHand) <= BLACKJACK
          && Score(t.dealerHand) <= BLACKJACK)
    && (t.gameState == GameOver ==>
          t.message in {PLAYER_BUSTS, DEALER_BUSTS, DEALER_WINS, PLAYER_WINS, TIE})
  }

  /** While neither hand has busted, a 52-card deck still holds at least ten
      cards: every card is worth at least one point, so the two hands hold
      at most 42 cards. A round therefore never draws from an empty deck. */
  lemma DeckNeverRunsOut(deck: seq<Card>, playerHand: seq<Card>, dealerHand: seq<Card>)
    requires Conserved(deck, playerHand, dealerHand)
    ensures Score(playerHand) <= BLACKJACK && Score(dealerHand) <= BLACKJACK ==> |deck| >= 10
  {
    FullDeckSize(multiset(deck + playerHand + dealerHand));
    assert |multiset(deck + playerHand + dealerHand)| == |deck| + |playerHand| + |dealerHand|;
  }

  /** A card at two positions of a sequence is counted twice. */
  lemma {:induction false} RepeatCountsTwice(s: seq<Card>, i: nat, j: nat)
    requires i < j < |s| && s[i] == s[j]
    ensures multiset(s)[s[i]] >= 2
  {
    assert s == s[..i] + [s[i]] + s[i + 1..j] + [s[j]] + s[j + 1..];
  }

  /** While the cards are conserved no card is in two places at once. */
  lemma ConservedCardsAreDistinct(deck: seq<Card>, playerHand: seq<Card>, dealerHand: seq<Card>)
    requires Conserved(deck, playerHand, dealerHand)
    ensures var all := deck + playerHand + dealerHand;
      forall i, j :: 0 <= i < j < |all| ==> all[i] != all[j]
  {
    var all := deck + playerHand + dealerHand;
    forall i, j | 0 <= i < j < |all| ensures all[i] != all[j] {
      if all[i] == all[j] {
        RepeatCountsTwice(all, i, j);
        assert false;
      }
    }
  }

  /** Dealing four cards off the top keeps every card. */
  lemma DealConserves(s: seq<Card>)
    requires |s| >= 4 && IsFullDeck(multiset(s))
    ensures Conserved(s[4..], [s[0], s[1]], [s[2], s[3]])
  {
    assert s == [s[0], s[1]] + [s[2], s[3]] + s[4..];
    assert multiset(s[4..] + [s[0], s[1]] + [s[2], s[3]]) == multiset(s);
  }

  /** Moving the top card of the deck onto either hand keeps every card. */
  lemma MoveTopConserves(deck: seq<Card>, playerHand: seq<Card>, dealerHand: seq<Card>)
    requires deck != [] && Conserved(deck, playerHand, dealerHand)
    ensures Conserved(deck[1..], playerHand + [deck[0]], dealerHand)
    ensures Conserved(deck[1..], playerHand, dealerHand + [deck[0]])
  {
    assert deck == [deck[0]] + deck[1..];
    assert multiset(deck[1..] + (playerHand + [deck[0]]) + dealerHand)
        == multiset(deck + playerHand + dealerHand);
    assert multiset(deck[1..] + playerHand + (dealerHand + [deck[0]]))
        == multiset(deck + playerHand + dealerHand);
  }

  /** The dealer's drawing always stops at 17 or more, with every card
      still accounted for: while the dealer is under 17 and the player has
      not busted the deck is never empty. */
  lemma DealerFinishes(deck: seq<Card>, playerHand: seq<Card>, dealerHand: seq<Card>)
    requires Conserved(deck, playerHand, dealerHand) && Score(playerHand) <= BLACKJACK
    ensures var k := DealerDraws(dealerHand, deck);
      && Conserved(deck[k..], playerHand, dealerHand + deck[..k])
      && Score(dealerHand + deck[..k]) >= DEALER_STANDS
  {
    var k := DealerDraws(dealerHand, deck);
    assert deck == deck[..k] + deck[k..];
    assert multiset(deck[k..] + playerHand + (dealerHand + deck[..k]))
        == multiset(deck + playerHand + dealerHand);
    DeckNeverRunsOut(deck[k..], playerHand, dealerHand + deck[..k]);
  }

  /** The dealer's loop of `stand`: draw from the top while the dealer's
      hand is under 17. Returns the final hand, the rest of the deck and the
      hand's value; `hand` and `deck` must hold enough cards for the dealer
      to reach 17. */
  method DealerPlays(hand: seq<Card>, deck: seq<Card>)
    returns (newHand: seq<Card>, newDeck: seq<Card>, value: int)
    requires Score(hand + deck[..DealerDraws(hand, deck)]) >= DEALER_STANDS
    ensures var k := DealerDraws(hand, deck);
      newHand == hand + deck[..k] && newDeck == deck[k..]
    ensures value == Score(newHand) && value >= DEALER_STANDS
  {
    var total := DealerDraws(hand, deck);
    newHand, newDeck := hand, deck;
    value := CalculateHandValue(newHand);
    ghost var drawn := 0;
    while value < DEALER_STANDS
      invariant drawn <= total
      invariant newHand == hand + deck[..drawn] && newDeck == deck[drawn..]
      invariant value == Score(newHand)
      decreases |newDeck|
    {
      assert deck[..drawn + 1] == deck[..drawn] + [newDeck[0]];
      newHand := newHand + [newDeck[0]];
      newDeck := newDeck[1..];
      drawn := drawn + 1;
      value := CalculateHandValue(newHand);
    }
    if drawn < total {
      DealerDrawsOnlyUnder17(hand, deck, drawn);
    }
  }

  /** The deal of `startNewGame` from a shuffled full deck `s`: the player
      gets its cards 0 and 1, the dealer 2 and 3, the deck keeps the other
      48; play starts with an empty message. */
  function Deal(s: seq<Card>): (t: Table)
    requires |s| == 52 && IsFullDeck(multiset(s))
    ensures Invariant(t) && t.gameState == Playing && t.message == ""
    ensures |t.playerHand| == 2 && |t.dealerHand| == 2 && |t.deck| == 48
    ensures t.playerHand + t.dealerHand + t.deck == s
  {
    DealConserves(s);
    TwoCardsNeverBust(s[0], s[1]);
    TwoCardsNeverBust(s[2], s[3]);
    assert [s[0], s[1]] + [s[2], s[3]] + s[4..] == s;
    Table(s[4..], [s[0], s[1]], [s[2], s[3]], Playing, "")
  }

  /** `startNewGame`: deal from a new deck shuffled with `choice`. */
  function NewRound(choice: seq<nat>): (t: Table)
    requires ValidChoices(choice, 52)
    ensures Invariant(t) && t.gameState == Playing && t.message == ""
    ensures |t.playerHand| == 2 && |t.dealerHand| == 2 && |t.deck| == 48
    ensures t.playerHand + t.dealerHand + t.deck == Shuffled(CreateDeck(), choice)
    ensures multiset(t.playerHand + t.dealerHand + t.deck) == multiset(CreateDeck())
  {
    DeckSize();
    ShuffledIsPermutation(CreateDeck(), choice);
    NewDeckIsFull();
    Deal(Shuffled(CreateDeck(), choice))
  }

  /** The table `NewRound` deals from the shuffled deck `s`. */
  lemma NewRoundDeals(choice: seq<nat>, s: seq<Card>)
    requires ValidChoices(choice, 52) && s == Shuffled(CreateDeck(), choice)
    ensures |s| == 52
    ensures NewRound(choice) == Table(s[4..], [s[0], s[1]], [s[2], s[3]], Playing, "")
  {
    DeckSize();
    ShuffledIsPermutation(CreateDeck(), choice);
    NewDeckIsFull();
  }

  /** `shuffleDeck(createDeck())`, the first line of `startNewGame`: the
      shuffled deck, from whose cards `NewRound` deals. */
  method ShuffleNewDeck(choice: seq<nat>) returns (newDeck: seq<Card>)
    requires ValidChoices(choice, 52)
    ensures newDeck == Shuffled(CreateDeck(), choice) && |newDeck| == 52
    ensures NewRound(choice) == Table(newDeck[4..], [newDeck[0], newDeck[1]], [newDeck[2], newDeck[3]], Playing, "")
  {
    newDeck := ShuffleDeck(CreateDeck(), choice);
    NewRoundDeals(choice, newDeck);
  }

  /** `hit`: outside play nothing changes; otherwise the top card of the deck
      moves to the end of the player's hand, and the round ends with the
      player's bust exactly when the new hand is over 21. */
  function AfterHit(t: Table): (r: Table)
    requires Invariant(t)
    ensures Invariant(r)
    ensures t.gameState != Playing ==> r == t
    ensures t.gameState == Playing ==>
      && t.deck != []
      && r.playerHand == t.playerHand + [t.deck[0]]
      && r.deck == t.deck[1..]
      && r.dealerHand == t.dealerHand
      && (r.gameState == GameOver <==> Score(r.playerHand) > BLACKJACK)
      && (r.gameState == GameOver ==> r.message == PLAYER_BUSTS)
      && (r.gameState != GameOver ==> r.gameState == Playing && r.message == t.message)
  {
    if t.gameState != Playing then t
    else
      DeckNeverRunsOut(t.deck, t.playerHand, t.dealerHand);
      MoveTopConserves(t.deck, t.playerHand, t.dealerHand);
      var hand := t.playerHand + [t.deck[0]];
      if Score(hand) > BLACKJACK then Table(t.deck[1..], hand, t.dealerHand, GameOver, PLAYER_BUSTS)
      else t.(deck := t.deck[1..], playerHand := hand)
  }

  /** `stand`: outside play nothing changes; otherwise the dealer takes the
      shortest run of top cards that lifts its hand to 17 or more, and the
      round ends with the outcome table's message. */
  function AfterStand(t: Table): (r: Table)
    requires Invariant(t)
    ensures Invariant(r)
    ensures t.gameState != Playing ==> r == t
    ensures t.gameState == Playing ==>
      var k := DealerDraws(t.dealerHand, t.deck);
      && r.dealerHand == t.dealerHand + t.deck[..k]
      && r.deck == t.deck[k..]
      && r.playerHand == t.playerHand
      && Score(r.dealerHand) >= DEALER_STANDS
      && r.gameState == GameOver
      && r.message == Verdict(Score(r.playerHand), Score(r.dealerHand))
  {
    if t.gameState != Playing then t
    else
      var k := DealerDraws(t.dealerHand, t.deck);
      DealerFinishes(t.deck, t.playerHand, t.dealerHand);
      var hand := t.dealerHand + t.deck[..k];
      Table(t.deck[k..], t.playerHand, hand, GameOver, Verdict(Score(t.playerHand), Score(hand)))
  }

  /** The page component: its five `useState` variables and its handlers. */
  class Blackjack {
    var deck: seq<Card>
    var playerHand: seq<Card>
    var dealerHand: seq<Card>
    var gameState: GameState
    var message: string

    function State(): Table
      reads this
    {
      Table(deck, playerHand, dealerHand, gameState, message)
    }

    ghost predicate Valid()
      reads this
    {
      Invariant(State())
    }

    /** The `useState` initial values, before the mount effect deals. */
    constructor ()
      ensures Valid()
      ensures State() == Table([], [], [], Betting, "")
    {
      deck, playerHand, dealerHand := [], [], [];
      gameState, message := Betting, "";
    }

    /** `startNewGame`. Of its two `setDeck` calls the later one, with the
        four dealt cards removed, is the one that takes effect. */
    method StartNewGame(choice: seq<nat>)
      requires ValidChoices(choice, 52)
      modifies this
      ensures State() == NewRound(choice)
      ensures Valid()
    {
      var newDeck := ShuffleNewDeck(choice);
      deck := newDeck;
      playerHand := [newDeck[0], newDeck[1]];
      dealerHand := [newDeck[2], newDeck[3]];
      gameState := Playing;
      message := "";
      deck := newDeck[4..];
    }

    /** `hit`. */
    method Hit()
      requires Valid()
      modifies this
      ensures State() == AfterHit(old(State()))
      ensures Valid()
    {
      if gameState != Playing {
        return;
      }
      DeckNeverRunsOut(deck, playerHand, dealerHand);
      var newPlayerHand := playerHand + [deck[0]];
      playerHand := newPlayerHand;
      deck := deck[1..];
      var value := CalculateHandValue(newPlayerHand);
      if value > BLACKJACK {
        gameState := GameOver;
        message := PLAYER_BUSTS;
      }
    }

    /** `stand`. The intermediate 'dealerTurn' is overwritten by 'gameOver'
        before the handler returns. */
    method Stand()
      requires Valid()
      modifies this
      ensures State() == AfterStand(old(State()))
      ensures Valid()
    {
      if gameState != Playing {
        return;
      }
      DealerFinishes(deck, playerHand, dealerHand);
      gameState := DealerTurn;
      var newDealerHand, newDeck, dealerValue := DealerPlays(dealerHand, deck);
      var playerValue := CalculateHandValue(playerHand);
      var verdict;
      if dealerValue > BLACKJACK {
        verdict := DEALER_BUSTS;
      } else if dealerValue > playerValue {
        verdict := DEALER_WINS;
      } else if dealerValue < playerValue {
        verdict := PLAYER_WINS;
      } else {
        verdict := TIE;
      }
      assert verdict == Verdict(playerValue, dealerValue);
      deck, dealerHand, message := newDeck, newDealerHand, verdict;
      gameState := GameOver;
    }
  }
}
