# Blackjack: the game engine, its wire format and the game board

This project models the core of a two-tier blackjack application in Dafny.

- **Go backend.** `Backend/game.go` keeps one `Game`: an 8-deck shoe (`Deck`), the player's hand and the dealer's hand. It builds and shuffles the shoe, deals from its front (rebuilding it when it runs dry), lets the player hit, plays the dealer out to 17 and decides the outcome. `Backend/main.go` serializes hands as `"V of S, V of S"` and chooses the JSON fields of the `start-game`, `hit` and `stand` replies.
- **React front end.** `Frontend/src/components/GameBoard/GameBoard.jsx` parses those hand texts back into card objects. It keeps its own copy of the hand evaluator and decides when a split is offered. It validates bets, settles a `stand` or a double-down into the balance, raises the bust flag and shows a status line.

The modules follow that structure:

| module | file | models |
|---|---|---|
| `Text` | text.dfy | the runtime string operations the code relies on: `split`/`join`, `includes`, Go's `strconv.Atoi` with its error ignored, JavaScript's `parseInt(s, 10)` |
| `Cards` | cards.dfy | the `Card` struct, the suit and value lists, card points |
| `Shoe` | shoe.dfy | the ordered 8-deck shoe and how often each card occurs in it |
| `Scoring` | scoring.dfy | `calculateHandValue` and the priority chain of `CheckOutcome` |
| `Engine` | game.dfy | the `Game` object as a class with the fields `deck`, `playerHand` and `dealerHand` |
| `Wire` | wire.dfy | `handToString` |
| `Server` | server.dfy | the `startGame`, `hit` and `stand` handlers |
| `ClientHands` | client_hands.dfy | `parseCard`, `checkIfCanSplit` and the client evaluator |
| `ClientBoard` | board.dfy | the board state as a class, the settlement arithmetic, the bust flag and the status line |

The `Game` class carries two ghost fields:

- `drawn`: every card dealt so far.
- `generation`: the position in `drawn` where the current shoe was built.

Its invariant `Valid()` states that the shoe is conserved. The cards dealt since the last rebuild, together with the undealt ones, are exactly 8 copies of each of the 52 standard cards. Every operation that deals keeps this invariant.

The shuffle is the Fisher–Yates loop that `rand.Shuffle` performs. The swap partner at each step is left unspecified, so the model covers every order the shuffle can produce.

`main.go` calls `game.Player.Hands[0]`, `game.PlayerHit(0)`, `game.DoubleDown` and `game.Split`. `game.go` defines none of these: its `Player` has a single `Hand`, and its `PlayerHit` takes no argument. The model follows `game.go`: the handlers act on the single `Hand`, and the backend's double-down and split handlers are left out.

## Model

| member | source | states |
|---|---|---|
| Text.IndexOf | Frontend/src/components/GameBoard/GameBoard.jsx:56 | the separator search that `split` performs: if it returns an index, `sep` occurs there and at no earlier index; if it returns nothing, `sep` occurs nowhere |
| Text.Includes | Frontend/src/components/GameBoard/GameBoard.jsx:76 | `includes` holds exactly when the substring occurs at some index |
| Text.JoinSplit | Frontend/src/components/GameBoard/GameBoard.jsx:43-44 | `split` loses no text: joining the pieces with the separator gives back the original string |
| Text.SplitJoin | Frontend/src/components/GameBoard/GameBoard.jsx:43-44 | splitting a join gives back the pieces, when no piece contains the separator's first character |
| Text.ParseInt | Frontend/src/components/GameBoard/GameBoard.jsx:202 | `parseInt` is NaN exactly when the string does not start with a digit, and an all-digit string reads as its decimal value |
| Cards.StandardHardPoints | Backend/game.go:99-108 | every value in the deck's value list counts between 1 and 10 with aces as 1 |
| Cards.DistinctValuesAndSuits | Backend/game.go:38-39 | no value and no suit is listed twice |
| Shoe.SuitRunCount | Backend/game.go:44-46 | the value loop produces each card of its suit exactly once and nothing else |
| Shoe.SuitRunsCount | Backend/game.go:43-47 | the suit loop produces each card of its suits and values exactly once |
| Shoe.PackCount | Backend/game.go:43-47 | one pass of the suit loop is one deck: each standard card once, nothing else |
| Shoe.OrderedCount | Backend/game.go:42-48 | `n` passes of the deck loop hold each standard card `n` times and no other card |
| Shoe.FullShoeContents | Backend/game.go:37-48 | the unshuffled shoe has 416 cards: each standard card 8 times, nothing else |
| Shoe.FullShoeIsShoe | Backend/game.go:49-50 | every rearrangement of the unshuffled shoe is still a full shoe of 416 cards |
| Scoring.CalculateHandValue | Backend/game.go:95-117 | the two loops compute `HandValue`, the best total of the hand |
| Scoring.BestIsLargestUnder22 | Backend/game.go:111-115 | demoting aces yields the hard sum once that exceeds 21; otherwise the largest total of at most 21 reachable by counting some of the aces as 11 |
| Scoring.HandValueBounds | Backend/game.go:95-117 | the value lies between the hard sum and the hard sum plus 10 per ace, and it is over 21 exactly when the hard sum is |
| Scoring.DemotionReachesBest | Backend/game.go:112-115 | the demotion loop stops exactly at the best total |
| Scoring.HandValueExamples | Backend/game.go:95-117 | A,A,9 is 21; K,A is 21; 10,J,5 is 25 |
| Scoring.VerdictIsTotal | Backend/game.go:119-139 | every score pair gets exactly one outcome of "win", "loss" or "draw", and the result text matches that outcome |
| Scoring.VerdictPriority | Backend/game.go:123-137 | the order of the checks: player bust, dealer bust, player 21, dealer 21, five cards, then the comparison of totals, stated in both directions |
| Scoring.DrawNeedsEqualTotals | Backend/game.go:133-138 | a draw happens only on equal totals under 21 with fewer than five player cards |
| Engine.Game.constructor | Backend/game.go:31-35 | a new game has empty hands, a full 416-card shoe and a valid invariant |
| Engine.Game.InitDeck | Backend/game.go:37-51 | the rebuilt deck has 416 cards and is a full shoe |
| Engine.Game.AppendPack | Backend/game.go:43-47 | one pass of the suit loop appends one ordered deck |
| Engine.Game.AppendSuit | Backend/game.go:44-46 | the value loop appends the suit's run of cards in value order |
| Engine.Game.Shuffle | Backend/game.go:50 | the shuffle keeps the deck's length and its multiset of cards |
| Engine.Game.DrawCard | Backend/game.go:85-93 | `drawCard` returns the front card and removes it from the deck; on an empty deck it first rebuilds the shoe, and 415 cards remain; the card is always standard and the shoe stays conserved |
| Engine.Game.DrawPair | Backend/game.go:62-63 | the two `drawCard` calls in a hand literal take the next two cards in order, both standard |
| Engine.Game.StartGame | Backend/game.go:53-66 | both hands are replaced by two standard cards each; with at least 2 cards in the deck the player gets cards 1-2; with at least 4, the dealer also gets cards 3-4 and the deck loses exactly those four |
| Engine.Game.PlayerHit | Backend/game.go:68-73 | the player's hand grows by exactly the drawn card, the deck's former front card when the deck was not empty; the card is standard, so a standard hand stays standard |
| Engine.Game.PlayerStand | Backend/game.go:75-83 | the dealer ends on 17 or more; the old hand is a prefix of the new one; each card was added while the hand was below 17; a dealer already on 17 draws nothing; when the deck did not run out, the dealer's new cards are the deck's first k cards, in order, and the deck loses exactly those; every card drawn is standard, so a standard hand stays standard |
| Engine.FrontStep | Backend/game.go:90-91 | drawing a standard card from the front keeps the cards taken so far a standard prefix of the original deck, until the deck runs out |
| Engine.Game.CheckOutcome | Backend/game.go:119-139 | the result and outcome come from `Verdict` applied to the two hand values and the player's card count |
| Engine.DealerDrawStep | Backend/game.go:80-82 | one dealer draw strictly raises the hard sum, so the loop terminates, and every earlier hand was below 17 |
| Wire.HandToString | Backend/main.go:144-153 | the loop and the trailing trim produce exactly the card texts joined by ", " |
| Wire.AccumulatedIsHandText | Backend/main.go:146-151 | the text built by the loop is the joined hand followed by the ", " that the trim removes |
| Wire.HandTextEmpty | Backend/main.go:149-151 | the text is empty exactly when the hand is |
| Wire.StandardIsPlain | Backend/game.go:38-39 | no deck value or suit contains a comma or a space |
| Wire.SplitHandText | Backend/main.go:144-153 | splitting a hand text on ", " gives one piece per card, in hand order |
| Wire.SplitCardText | Backend/main.go:147 | splitting one card text on " of " gives its value and its suit |
| Server.StartGameHandler | Backend/main.go:63-70 | after dealing, the reply carries the message, the whole player hand and only the dealer's first card; both hands hold standard cards; with at least 2 cards in the deck the player holds its first two, and with at least 4 the hands are its first four cards |
| Server.HitHandler | Backend/main.go:72-90 | the player draws one card, the deck's front card when the deck is not empty, and always a standard card; the reply carries a result and an outcome exactly when the hand is over 21, and these are then always "Player busts, dealer wins!" and "loss" |
| Server.StandHandler | Backend/main.go:92-100 | the dealer plays out to 17 or more, drawing from the front of the deck, draws only standard cards, and draws nothing when already on 17; the reply carries the whole dealer hand and the verdict on both totals |
| ClientHands.ParseHandText | Frontend/src/components/GameBoard/GameBoard.jsx:43-58 | parsing a hand text gives back the server's cards, in order, with value and suit; an empty text gives no cards |
| ClientHands.DealerShowsFirstCardOnly | Backend/main.go:68 | from the start-game reply the client sees exactly one dealer card, the first |
| ClientHands.CanSplitOnServerHand | Frontend/src/components/GameBoard/GameBoard.jsx:60-66 | a split is offered exactly when the server's hand holds two cards of equal value, whatever their suits |
| ClientHands.CalculateClientHandValue | Frontend/src/components/GameBoard/GameBoard.jsx:187-212 | the client's loops compute `ClientValue`: NaN when any value is unreadable, otherwise the best total |
| ClientHands.ClientCountsAgree | Frontend/src/components/GameBoard/GameBoard.jsx:190-205 | on readable values, the client's sum and ace count equal the server's |
| ClientHands.ClientValueAgrees | Frontend/src/components/GameBoard/GameBoard.jsx:187-212 | on readable values, the client's total equals the server's `calculateHandValue` |
| ClientHands.StandardIsReadable | Backend/game.go:39 | every value the deck produces can be read by both evaluators |
| ClientHands.ServerHandRoundTrip | Frontend/src/components/GameBoard/GameBoard.jsx:43-58 | a hand of standard cards, as every server reply carries, parses back into that hand, and the client scores it as the server does |
| ClientBoard.GameStatus | Frontend/src/components/GameBoard/GameBoard.jsx:223-234 | each status text appears exactly under its condition: game over first, then a game in progress, then a placed bet |
| ClientBoard.StandRoundNet | Frontend/src/components/GameBoard/GameBoard.jsx:94-107 | after a stand the player nets +bet on a win, 0 on a draw and -bet on the backend's "loss" |
| ClientBoard.LoseBranchUnreachable | Frontend/src/components/GameBoard/GameBoard.jsx:104-106 | with the code as written, no round ever shows "You lose!" after a stand, and a lost round, after a stand or a double-down, keeps its message |
| ClientBoard.StandMessageCoversOutcomes | Frontend/src/components/GameBoard/GameBoard.jsx:94-107 | with the corrected test, "You lose!" appears exactly on a loss, and all other outcomes are unchanged |
| ClientBoard.DoubleDownDrawLosesStake | Frontend/src/components/GameBoard/GameBoard.jsx:143-146 | with the code as written, a doubled-down draw costs the player one bet |
| ClientBoard.DoubleDownIsStandOnDoubledBet | Frontend/src/components/GameBoard/GameBoard.jsx:137-146 | a corrected double-down settles like a stand on the doubled bet |
| ClientBoard.DealerBustFlagsPlayer | Frontend/src/components/GameBoard/GameBoard.jsx:90-92 | with the code as written, a dealer bust raises the player's bust flag |
| ClientBoard.BustFlagMeansPlayerBust | Frontend/src/components/GameBoard/GameBoard.jsx:90-92 | the corrected flag is raised exactly when the player's total is over 21 |
| ClientBoard.HitFlagIsPlayerBust | Frontend/src/components/GameBoard/GameBoard.jsx:75-77 | in the hit handler the flag as written is harmless: the only result a hit reply carries is the player's bust, and both flags raise on it |
| ClientBoard.NoPlayerBustText | Backend/game.go:123-138 | no result text other than the player-bust text contains "Player busts" |
| ClientBoard.Board.constructor | Frontend/src/components/GameBoard/GameBoard.jsx:9-20 | the initial state; the status reads "Waiting for Bets" |
| ClientBoard.Board.PlaceBet | Frontend/src/components/GameBoard/GameBoard.jsx:175-185 | a bet is accepted exactly when 0 < amount <= balance; the balance drops by exactly the amount and never goes below 0; a rejected bet changes only the message |
| ClientBoard.Board.OnHitReply | Frontend/src/components/GameBoard/GameBoard.jsx:71-79 | the hand is read back from `player`; the bust flag is `includes('busts')` on `result`; the message is the result or empty; nothing else changes |
| ClientBoard.Board.OnStandReply | Frontend/src/components/GameBoard/GameBoard.jsx:86-111 | the dealer hand is read back and the flag is `includes('busts')` on the result; with an outcome, the balance and winnings grow by `StandCredit` and the game ends, and the summary tests 'lose' as written; without one, the balance and the game state are unchanged |
| ClientBoard.Board.EndRound | Frontend/src/components/GameBoard/GameBoard.jsx:108-110 | the common tail: credit the amount, set the winnings and message, end the game and reveal the hidden card |
| ClientBoard.Board.DoubleDown | Frontend/src/components/GameBoard/GameBoard.jsx:116-161 | attempted exactly when the balance covers the bet; the bet doubles, the balance changes by -bet plus the as-written credit on the pre-doubling bet, and the message is the summary that tests 'lose'; a refused attempt changes nothing |

## Left out

- HTTP routing, CORS, JSON encoding, the `sync.Mutex` locking, and logging are left out. Each handler is modelled as a sequential call on the one game.
- `rand.Seed` and the distribution of `rand.Shuffle` are left out. The shuffle's swap partner is an arbitrary choice, so the model states a permutation, not uniformity.
- `main.go`'s `doubleDown`, `split` and `getPlayerHand` handlers are left out. They call `DoubleDown`, `Split` and `Hands`, which `game.go` does not define.
- `Text.Atoi` reads only non-empty digit strings; every other string reads as 0, the value Go returns with the ignored error. Signs (`+`, `-`) and 64-bit overflow are not modelled. No deck value uses them.
- `Text.ParseInt` reads the leading digit run only. JavaScript's leading whitespace, sign handling and `Number` precision are not modelled.
- The React effects, the `fetch` promise plumbing, `startNewGame`, `handleSplit`, the console logging and the presentation components are left out. `Board.DoubleDown` takes both replies at once, as if the two requests always complete in order.
- `Board.PlaceBet` takes the already parsed amount: `parseInt(betAmount, 10)` is `Text.ParseInt`, with NaN as `None`.
- React's state snapshots are not modelled. `handleStand` reads `balance` from the render's closure, while `handleDoubleDown` uses functional updates. The model assumes no other update lands in between.
- The `isBusted` effect that turns a raised bust flag into "You busted!" and game over is not modelled. The flag itself is.
- `Engine.Game.Valid` does not claim that the hands hold only standard cards. Instead, each dealing operation ensures that the cards it adds are standard.
- `Engine.Game.DrawCard`: when the deck is empty it states only that the shoe was rebuilt (415 cards remain, and they plus the card are a full shoe), not which card comes first, because that depends on the shuffle.

## Findings

| source | as written | input that shows it | evidently intended | confidence | as-written member | corrected member |
|---|---|---|---|---|---|---|
| Frontend/src/components/GameBoard/GameBoard.jsx:143-146 | a double-down draw credits `bet`, the bet captured before doubling, although the comment says the doubled bet is returned | bet 10, outcome "draw": 10 is deducted twice and 10 credited, so the player loses 10 on a push | credit the doubled bet, 2 * bet, on a draw | not executed | ClientBoard.DoubleDownDrawLosesStake | ClientBoard.DoubleDownIsStandOnDoubledBet |
| Frontend/src/components/GameBoard/GameBoard.jsx:104 | the stand handler tests `data.outcome === 'lose'`, but the backend sends "loss" (the same test appears at line 147) | stand with player 18, dealer 20: outcome "loss", result "Dealer wins!", and the message stays "Dealer wins!" instead of "You lose!" | test for "loss" | not executed | ClientBoard.LoseBranchUnreachable | ClientBoard.StandMessageCoversOutcomes |
| Frontend/src/components/GameBoard/GameBoard.jsx:90-92 | the stand handler sets the bust flag to `result.includes('busts')`; the same test at line 76 is harmless because a hit reply only carries the player's bust | stand with player 20, dealer 22: the result is "Dealer busts, player wins!" and the player is flagged as busted | flag only the player's bust | not executed | ClientBoard.DealerBustFlagsPlayer | ClientBoard.BustFlagMeansPlayerBust |

The `Board` class models the handlers as written. It uses `BustFlagAsWritten`, `StandMessageAsWritten`, `DoubleDownCreditAsWritten` and `DoubleDownMessageAsWritten`. The corrected definitions (`BustFlag`, `StandMessage`, `DoubleDownCredit` and `DoubleDownMessage`) stand beside them with their lemmas.
