# Blackjack engine model

A Dafny model of the game engine of the single-page Blackjack game in
`app/page.tsx`: the ordered 52-card deck (`createDeck`), the Fisher-Yates
shuffle (`shuffleDeck`), the hand value with soft and hard aces
(`calculateHandValue`), and the page component's five pieces of state
(`deck`, `playerHand`, `dealerHand`, `gameState`, `message`) with the three
handlers `startNewGame`, `hit` and `stand`.

Modules, one per part of the engine:

- `Cards` (`cards.dfy`): suits, values and cards as datatypes; `CreateDeck`
  and the proofs that it has 52 cards in suit-major order, each card once.
- `Shuffle` (`shuffle.dfy`): `Shuffled`, the shuffle as a function of the
  random indices, and the method `ShuffleDeck` that runs the source's
  in-place swap loop on an array copy and is proved equal to it; the result
  is a permutation of the input.
- `Scoring` (`scoring.dfy`): `Score`, the hand value as a closed form (raw
  total minus 10 for each ace demoted, with the fewest demotions that avoid a
  bust, or every ace when none does), and the method `CalculateHandValue`, the source's two loops, proved
  equal to it.
- `Engine` (`engine.dfy`): the class `Blackjack`, whose fields are the five
  state variables and whose methods are the three handlers. Each handler is
  proved against a function on a `Table` snapshot of the state (`NewRound`,
  `AfterHit`, `AfterStand`), and those functions carry the game's
  properties: no-op gating outside play, the top card moving to a hand, bust
  exactly above 21, the dealer stopping at 17 or more, the outcome table,
  and the invariant that, from the first deal on, the deck and both hands
  together hold the 52 cards of a new deck, each once.

The source never guards a draw from an empty deck. The model shows that no
guard is needed within a round: every card is worth at least one point, so
while neither hand is above 21 the two hands hold at most 42 cards and the
deck at least ten (`Engine.DeckNeverRunsOut`), and the dealer's drawing
always reaches 17 before the deck runs out (`Engine.DealerFinishes`).

The initial state is the `useState` defaults, with `gameState` equal to
`'betting'`; the mount effect then calls `startNewGame`, which is the only
way into `'playing'`. No handler leads back to `'betting'`.

## Model

| member | source | states |
|---|---|---|
| Cards.SuitIndex | app/page.tsx:9 | every suit has a position in the `suits` table |
| Cards.ValueIndex | app/page.tsx:10 | every value has a position in the `values` table |
| Cards.SuitCards | app/page.tsx:23 | one suit's block has 13 cards, the k-th carrying the k-th value |
| Cards.FlatMapSuits | app/page.tsx:22-24 | `suits.flatMap(...)` yields 13 cards per listed suit; `FlatMapLayout` proves which card is at each position |
| Cards.CreateDeck | app/page.tsx:21-25 | `createDeck` returns 52 cards; `DeckLayout`, `DeckIsComplete` and `DeckHoldsEachCardOnce` prove their order and that each card occurs once |
| Cards.FlatMapLayout | app/page.tsx:22-24 | the flat-mapped blocks have 13 cards per suit, position i holding suit i / 13 and value i % 13 |
| Cards.DeckLayout | app/page.tsx:21-25 | `createDeck` returns 52 cards, position 13 * s + v holding the s-th suit and the v-th value |
| Cards.DeckSize | app/page.tsx:21-25 | `createDeck` returns 52 cards |
| Cards.DeckPositionOf | app/page.tsx:21-25 | a card's suit and value determine its position in the new deck |
| Cards.DeckIsComplete | app/page.tsx:21-25 | every (suit, value) pair is in the new deck |
| Cards.DeckIsDistinct | app/page.tsx:21-25 | no card occurs at two positions of the new deck |
| Cards.DeckHoldsEachCardOnce | app/page.tsx:21-25 | the new deck holds each card exactly once |
| Cards.NewDeckIsFull | app/page.tsx:21-25 | the new deck's multiset holds every card once |
| Cards.FullDeckSize | app/page.tsx:21-25 | any collection holding every card once is the new deck up to order and has 52 cards |
| Shuffle.Swap | app/page.tsx:32 | the destructuring swap keeps the length and puts the old j-th card at i and the old i-th card at j; `SwapPermutes` proves it keeps every card |
| Shuffle.Steps | app/page.tsx:30-33 | the loop iterations from i = k - 1 down to 1 keep the length; `StepsPermute` proves they keep every card |
| Shuffle.Shuffled | app/page.tsx:28-35 | the deck `shuffleDeck` returns has the input's length, and a deck of at most one card comes back unchanged; `ShuffledIsPermutation` proves it is a permutation |
| Shuffle.SwapPermutes | app/page.tsx:32 | the destructuring swap exchanges the two positions and keeps every card |
| Shuffle.StepsPermute | app/page.tsx:30-33 | any number of iterations of the swap loop keeps the length and every card |
| Shuffle.ShuffledIsPermutation | app/page.tsx:28-35 | the shuffled deck is a permutation of the input deck |
| Shuffle.ShuffleDeck | app/page.tsx:28-35 | the in-place loop on a copy returns the shuffle of the input for the given random indices, a permutation of it |
| Scoring.Points | app/page.tsx:42-49 | a card adds between 2 and 11 points before demotion, and 11 exactly when it is an ace |
| Scoring.RawTotal | app/page.tsx:41-50 | the sum the for loop builds lies between 2 and 11 points per card; `TotalsAgree` ties it to the aces |
| Scoring.AceCount | app/page.tsx:41-50 | the `aces` counter of the for loop is at most the number of cards; `TotalsAgree` ties it to the totals |
| Scoring.TotalsAgree | app/page.tsx:41-50 | the total with aces at 11 is the total with aces at 1 plus 10 per ace, and a hand is worth at least its number of cards |
| Scoring.AppendCard | app/page.tsx:41-50 | adding a card to a hand adds its points, and one ace when it is an ace |
| Scoring.Demotions | app/page.tsx:51-54 | the demotion loop demotes no more aces than there are, stops at 21 or below unless it runs out of aces, and never demotes once the total is 21 or below |
| Scoring.Score | app/page.tsx:38-56 | a hand's value lies between its all-aces-1 and all-aces-11 totals, is over 21 exactly when the all-aces-1 total is, and is at least the number of cards |
| Scoring.CalculateHandValue | app/page.tsx:38-56 | the counting loop followed by the demotion loop returns the closed-form value `Score` |
| Scoring.ScoreIsBest | app/page.tsx:51-54 | no other choice of demoted aces gives a higher total that is 21 or below, and a bust value is the lowest total the hand can reach |
| Scoring.TwoCardsNeverBust | app/page.tsx:38-56 | a two-card hand is never over 21, so a fresh deal never busts |
| Scoring.SoftTwentyOne | app/page.tsx:42-44 | an ace and a king of any suits count 21 |
| Scoring.OneAceDemoted | app/page.tsx:51-54 | two aces and a nine of any suits count 21: one ace is demoted |
| Scoring.AllAcesDemoted | app/page.tsx:51-54 | three aces and a nine of any suits count 12: two demotions leave 22, so all three aces are demoted |
| Scoring.BustReported | app/page.tsx:45-55 | a king, a queen and a two of any suits count 22: a bust value is returned unchanged |
| Engine.Verdict | app/page.tsx:104-112 | the outcome is one of the four messages: the dealer's bust exactly when the dealer is over 21, otherwise the higher value wins and equal values tie |
| Engine.DealerDraws | app/page.tsx:96-99 | the dealer takes at most the whole deck and, unless the deck ran out, ends at 17 or more |
| Engine.DealerDrawsOnlyUnder17 | app/page.tsx:96-99 | the dealer draws each card while its hand is under 17, so it takes the shortest run of cards that lifts it to 17 |
| Engine.DealerPlays | app/page.tsx:94-99 | the dealer's loop takes exactly the `DealerDraws` top cards and returns the rest of the deck and a final value of 17 or more |
| Engine.DeckNeverRunsOut | app/page.tsx:82-84 | while the cards are conserved and neither hand is over 21 the deck holds at least ten cards |
| Engine.ConservedCardsAreDistinct | app/page.tsx:59-61 | while the cards are conserved no card is in two places at once |
| Engine.DealConserves | app/page.tsx:71-77 | dealing four cards off a full deck keeps every card |
| Engine.MoveTopConserves | app/page.tsx:82-84 | moving the top card onto either hand keeps every card |
| Engine.DealerFinishes | app/page.tsx:96-101 | while the player has not busted, the dealer reaches 17 or more before the deck runs out, and every card is kept |
| Engine.Deal | app/page.tsx:73-77 | the deal gives the player cards 0 and 1, the dealer cards 2 and 3, keeps the other 48 in the deck, starts play with an empty message and satisfies the invariant |
| Engine.NewRoundDeals | app/page.tsx:70-78 | `NewRound` deals cards 0 and 1 of the shuffled new deck to the player, 2 and 3 to the dealer, and keeps the rest as the deck |
| Engine.ShuffleNewDeck | app/page.tsx:71 | `shuffleDeck(createDeck())` returns the 52-card shuffle of the new deck, from which `NewRound` deals |
| Engine.NewRound | app/page.tsx:70-78 | `startNewGame` deals 2, 2 and 48 cards of the shuffled new deck, in its order, and holds every card once |
| Engine.AfterHit | app/page.tsx:80-89 | outside play nothing changes; in play the top card moves to the end of the player's hand, the dealer is untouched, the round ends with the player's bust exactly when the new hand is over 21, and the invariant is kept |
| Engine.AfterStand | app/page.tsx:91-114 | outside play nothing changes; in play the dealer takes the top cards it draws, ends at 17 or more, the player's hand is untouched, the round ends with the outcome table's message, and the invariant is kept |
| Engine.Blackjack.constructor | app/page.tsx:59-63 | the initial state: empty deck and hands, `'betting'`, empty message |
| Engine.Blackjack.StartNewGame | app/page.tsx:70-78 | the handler leaves the state `NewRound` describes and keeps the invariant |
| Engine.Blackjack.Hit | app/page.tsx:80-89 | the handler leaves the state `AfterHit` describes and keeps the invariant |
| Engine.Blackjack.Stand | app/page.tsx:91-114 | the handler leaves the state `AfterStand` describes and keeps the invariant |

## Left out

- Rendering (app/page.tsx:116-171): the JSX, the card and button components, the suit icons and hiding the dealer's first card during play are presentation only.
- `Math.random` (app/page.tsx:31): the random index for position i is a parameter `choice[i]` with `0 <= choice[i] <= i`; the uniformity of the shuffle and the reachability of every permutation are not modelled.
- The suit glyphs and value strings are datatypes; `parseInt` of a numeral value is its number, and the `['K', 'Q', 'J'].includes` test is a membership test on the datatype.
- The mount effect (app/page.tsx:66-68) is not a member of its own: it is `Blackjack.StartNewGame` called once on a freshly constructed `Blackjack`.
- React state updates: each handler's setters take effect together when it returns, and the model assigns the resulting state. The first `setDeck(newDeck)` of `startNewGame` is overwritten by the second, and the `'dealerTurn'` that `stand` sets is overwritten by `'gameOver'`, so neither is ever visible. Re-renders, stale closures and two handlers running on one render are not modelled.
- Engine.DealerPlays: requires that the deck holds enough cards for the dealer to reach 17. Past the end of the deck the source pushes an undefined card, and the next loop test throws when `calculateHandValue` reads that card's value, so `stand` throws there; `Engine.DealerFinishes` shows that a table satisfying the invariant always meets this requirement.
- Numbers are unbounded integers; hand values never exceed a few hundred, so JavaScript's floating-point numbers make no difference.
