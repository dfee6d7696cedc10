/**
 * The game-board state of Frontend/src/components/GameBoard/GameBoard.jsx: bet
 * placement, how a `stand` or double-down reply is settled into the balance, the
 * bust flag and the status line.
 */
module ClientBoard {
  import opened Options
  import opened Text
  import opened Scoring
  import opened Server
  import opened ClientHands

  /** GameBoard.jsx `getGameStatus`: game over first, then a running game, then a placed bet. */
  function GameStatus(gameOver: bool, gameStarted: bool, hasBet: bool): (status: string)
    ensures status == "Game Over" <==> gameOver
    ensures status == "Game in Progress" <==> !gameOver && gameStarted
    ensures status == "Waiting for Actions" <==> !gameOver && !gameStarted && hasBet
    ensures status == "Waiting for Bets" <==> !gameOver && !gameStarted && !hasBet
  {
    if gameOver then "Game Over"
    else if gameStarted then "Game in Progress"
    else if hasBet then "Waiting for Actions"
    else "Waiting for Bets"
  }

  /** A JSON field that JavaScript treats as true: present and not the empty string. */
  predicate Truthy(field: Option<string>) {
    field.Some? && field.value != ""
  }

  /** The decimal digits of a number, as a template literal prints it. */
  function NatText(n: nat): string {
    if n < 10 then ["0123456789"[n]] else NatText(n / 10) + ["0123456789"[n % 10]]
  }

  /** What the stand handler credits: twice the bet on "win", the bet on "draw", nothing on any other outcome. */
  function StandCredit(outcome: string, bet: nat): nat {
    if outcome == "win" then 2 * bet
    else if outcome == "draw" then bet
    else 0
  }

  /**
   * A round settled by `stand` nets the player the bet on a win, nothing on a draw
   * and the lost bet otherwise, the backend's "loss" included.
   */
  lemma StandRoundNet(p: int, d: int, n: nat, bet: nat)
    ensures var outcome := Verdict(p, d, n).1;
      StandCredit(outcome, bet) - bet ==
        if outcome == "win" then bet else if outcome == "draw" then 0 else -(bet as int)
    ensures StandCredit("loss", bet) == 0
  {
    VerdictIsTotal(p, d, n);
  }

  // Finding: the client tests for 'lose' but the backend sends "loss".

  /** The message after a stand reply's outcome, as written: it tests for 'lose'. */
  function StandMessageAsWritten(outcome: string, shown: string, bet: nat): string {
    if outcome == "win" then "You win! You won $" + NatText(2 * bet)
    else if outcome == "draw" then "It's a draw! Your bet of $" + NatText(bet) + " has been returned."
    else if outcome == "lose" then "You lose!"
    else shown
  }

  /**
   * No backend outcome is ever 'lose', so as written no round ever shows "You lose!",
   * and a lost round keeps its result text as the message.
   */
  lemma LoseBranchUnreachable(p: int, d: int, n: nat, bet: nat)
    ensures Verdict(p, d, n).1 != "lose"
    ensures StandMessageAsWritten(Verdict(p, d, n).1, Verdict(p, d, n).0, bet) != "You lose!"
    ensures Verdict(p, d, n).1 == "loss" ==>
      StandMessageAsWritten(Verdict(p, d, n).1, Verdict(p, d, n).0, bet) == Verdict(p, d, n).0
    ensures forall shown: string, won: nat ::
      Verdict(p, d, n).1 == "loss" ==> DoubleDownMessageAsWritten(Verdict(p, d, n).1, shown, won) == shown
  {
    VerdictIsTotal(p, d, n);
  }

  /** The message after a stand reply's outcome, testing for the "loss" the backend sends. */
  function StandMessage(outcome: string, shown: string, bet: nat): string {
    if outcome == "win" then "You win! You won $" + NatText(2 * bet)
    else if outcome == "draw" then "It's a draw! Your bet of $" + NatText(bet) + " has been returned."
    else if outcome == "loss" then "You lose!"
    else shown
  }

  /** With the corrected test every backend outcome has its own summary, and a loss says "You lose!". */
  lemma StandMessageCoversOutcomes(p: int, d: int, n: nat, shown: string, bet: nat)
    ensures var outcome := Verdict(p, d, n).1;
      (outcome == "loss" <==> StandMessage(outcome, shown, bet) == "You lose!")
    ensures StandMessage(Verdict(p, d, n).1, shown, bet) ==
      StandMessageAsWritten(Verdict(p, d, n).1, shown, bet) || Verdict(p, d, n).1 == "loss"
  {
    VerdictIsTotal(p, d, n);
  }

  // Finding: a double-down draw refunds only the bet from before the doubling.

  /** The double-down credit as written: `bet` is the pre-doubling bet captured by the handler. */
  function DoubleDownCreditAsWritten(outcome: string, bet: nat): nat {
    if outcome == "win" then 4 * bet
    else if outcome == "draw" then bet
    else 0
  }

  /** As written, a doubled-down push loses the player one bet although nobody won. */
  lemma DoubleDownDrawLosesStake(bet: nat)
    requires bet > 0
    ensures DoubleDownCreditAsWritten("draw", bet) - 2 * bet == -(bet as int)
    ensures DoubleDownCreditAsWritten("draw", bet) < StandCredit("draw", 2 * bet)
  {
  }

  /** The double-down credit with the doubled stake returned on a draw. */
  function DoubleDownCredit(outcome: string, bet: nat): nat {
    if outcome == "win" then 4 * bet
    else if outcome == "draw" then 2 * bet
    else 0
  }

  /**
   * A double-down settles exactly like a stand on the doubled bet: win nets twice
   * the original bet, a draw nets nothing, anything else loses both bets.
   */
  lemma DoubleDownIsStandOnDoubledBet(outcome: string, bet: nat)
    ensures DoubleDownCredit(outcome, bet) == StandCredit(outcome, 2 * bet)
    ensures DoubleDownCredit(outcome, bet) - 2 * bet ==
      if outcome == "win" then 2 * bet else if outcome == "draw" then 0 else -2 * (bet as int)
  {
  }

  /** The message after the stand that ends a double-down, as written: it tests for 'lose'. */
  function DoubleDownMessageAsWritten(outcome: string, shown: string, wonAmount: nat): string {
    if outcome == "win" then "You win! You won $" + NatText(wonAmount)
    else if outcome == "draw" then "It's a draw! You got your bet of $" + NatText(wonAmount) + " back."
    else if outcome == "lose" then "You lose!"
    else shown
  }

  /** The message after the stand that ends a double-down, testing for the "loss" the backend sends. */
  function DoubleDownMessage(outcome: string, shown: string, wonAmount: nat): string {
    if outcome == "win" then "You win! You won $" + NatText(wonAmount)
    else if outcome == "draw" then "It's a draw! You got your bet of $" + NatText(wonAmount) + " back."
    else if outcome == "loss" then "You lose!"
    else shown
  }

  // Finding: the bust flag reacts to "busts" anywhere, including the dealer's bust.

  /** The bust flag as written: `data.result.includes('busts')`. */
  function BustFlagAsWritten(result: string): bool {
    Includes(result, "busts")
  }

  /** As written, the dealer busting flags the player as busted although the player won. */
  lemma DealerBustFlagsPlayer(p: int, d: int, n: nat)
    requires p <= 21 < d
    ensures Verdict(p, d, n) == ("Dealer busts, player wins!", "win")
    ensures BustFlagAsWritten(Verdict(p, d, n).0)
  {
    assert OccursAt("Dealer busts, player wins!", "busts", 7);
  }

  /**
   * In `handleHit` the as-written flag is harmless: a hit reply carries a result only
   * when the player busts, and on that text both flags are raised.
   */
  lemma HitFlagIsPlayerBust(p: int, d: int, n: nat)
    requires p > 21
    ensures BustFlagAsWritten(Verdict(p, d, n).0) && BustFlag(Verdict(p, d, n).0)
  {
    assert OccursAt(Verdict(p, d, n).0, "busts", 7);
    assert OccursAt(Verdict(p, d, n).0, "Player busts", 0);
  }

  /** The bust flag keyed to the player's bust text. */
  function BustFlag(result: string): bool {
    Includes(result, "Player busts")
  }

  /** The corrected flag is raised exactly when the player's hand is over 21. */
  lemma BustFlagMeansPlayerBust(p: int, d: int, n: nat)
    ensures BustFlag(Verdict(p, d, n).0) <==> p > 21
  {
    var text := Verdict(p, d, n).0;
    if p > 21 {
      assert OccursAt(text, "Player busts", 0);
    } else {
      forall i: nat ensures !OccursAt(text, "Player busts", i) {
        if i + 12 <= |text| {
          assert text[i..i + 12] != "Player busts" by {
            NoPlayerBustText(text, i);
          }
        }
      }
    }
  }

  /** None of the result texts other than the player-bust loss holds "Player busts". */
  lemma NoPlayerBustText(text: string, i: nat)
    requires text in WinTexts + LossTexts + {"It's a draw!"} - {"Player busts, dealer wins!"}
    requires i + 12 <= |text|
    ensures text[i..i + 12] != "Player busts"
  {
    var window := text[i..i + 12];
    assert window[0] == text[i] && window[7] == text[i + 7];
  }

  /**
   * The state the GameBoard component keeps with `useState`, and the handlers
   * that update it, as written: the bust flag tests for "busts", the summaries
   * test for 'lose', and a doubled-down draw credits the pre-doubling bet.
   */
  class Board {
    var balance: int
    var bet: nat
    var hasBet: bool
    var gameStarted: bool
    var gameOver: bool
    var isBusted: bool
    var message: string
    var winnings: nat
    var playerHand: seq<ClientCard>
    var dealerHand: seq<ClientCard>
    var hideSecondCard: bool

    /** The status line for the current state. */
    function Status(): string
      reads this
    {
      GameStatus(gameOver, gameStarted, hasBet)
    }

    /** The initial `useState` values, with the balance handed down by the parent. */
    constructor (initialBalance: int)
      ensures balance == initialBalance && bet == 0 && winnings == 0 && message == ""
      ensures !hasBet && !gameStarted && !gameOver && !isBusted && hideSecondCard
      ensures playerHand == [] && dealerHand == []
      ensures Status() == "Waiting for Bets"
    {
      balance, bet, winnings, message := initialBalance, 0, 0, "";
      hasBet, gameStarted, gameOver, isBusted, hideSecondCard := false, false, false, false, true;
      playerHand, dealerHand := [], [];
    }

    /**
     * GameBoard.jsx `handlePlaceBetAndStartNewGame`, on the already parsed amount
     * (None for `NaN`): a bet is accepted exactly when 0 < amount <= balance; an
     * accepted bet leaves the balance lower by exactly the amount, never below 0
     * when it started at 0 or more, and a rejected one changes only the message.
     */
    method PlaceBet(amount: Option<int>) returns (accepted: bool)
      modifies this`message, this`bet, this`balance, this`hasBet, this`gameStarted
      ensures accepted <==> amount.Some? && 0 < amount.value <= old(balance)
      ensures accepted ==>
        && bet == amount.value && balance == old(balance) - amount.value
        && hasBet && gameStarted && message == old(message)
      ensures accepted && old(balance) >= 0 ==> balance >= 0
      ensures accepted && !old(gameOver) ==> Status() == "Game in Progress"
      ensures !accepted ==>
        && message == "Invalid bet amount"
        && balance == old(balance) && bet == old(bet)
        && hasBet == old(hasBet) && gameStarted == old(gameStarted)
      ensures gameOver == old(gameOver) && isBusted == old(isBusted) && winnings == old(winnings)
      ensures playerHand == old(playerHand) && dealerHand == old(dealerHand)
      ensures hideSecondCard == old(hideSecondCard)
    {
      if amount.None? || amount.value <= 0 || amount.value > balance {
        message := "Invalid bet amount";
        return false;
      }
      bet := amount.value;
      balance := balance - amount.value;
      hasBet := true;
      gameStarted := true;
      accepted := true;
    }

    /**
     * GameBoard.jsx `handleHit`, on the reply: read back the player hand, set the
     * bust flag from the result text, and show the result (or nothing).
     */
    method OnHitReply(reply: Reply)
      modifies this`playerHand, this`isBusted, this`message
      ensures playerHand == if Truthy(reply.player) then ParseHand(reply.player.value) else old(playerHand)
      ensures isBusted == if Truthy(reply.result) then BustFlagAsWritten(reply.result.value) else old(isBusted)
      ensures message == if Truthy(reply.result) then reply.result.value else ""
      ensures balance == old(balance) && bet == old(bet) && winnings == old(winnings)
      ensures hasBet == old(hasBet) && gameStarted == old(gameStarted) && gameOver == old(gameOver)
      ensures dealerHand == old(dealerHand) && hideSecondCard == old(hideSecondCard)
    {
      if Truthy(reply.player) {
        playerHand := ParseHand(reply.player.value);
      }
      if Truthy(reply.result) {
        isBusted := BustFlagAsWritten(reply.result.value);
      }
      message := if Truthy(reply.result) then reply.result.value else "";
    }

    /**
     * GameBoard.jsx `handleStand`, on the reply: read back the dealer hand, take the
     * bust flag and message from the result, and on an outcome credit
     * `StandCredit`, show the summary and end the game.
     */
    method OnStandReply(reply: Reply)
      modifies this`dealerHand, this`isBusted, this`message, this`balance, this`winnings,
        this`gameOver, this`gameStarted, this`hideSecondCard
      ensures dealerHand == if Truthy(reply.dealer) then ParseHand(reply.dealer.value) else old(dealerHand)
      ensures isBusted == if Truthy(reply.result) then BustFlagAsWritten(reply.result.value) else old(isBusted)
      ensures var shown := if Truthy(reply.result) then reply.result.value else old(message);
        if Truthy(reply.outcome) then
          && balance == old(balance) + StandCredit(reply.outcome.value, old(bet))
          && winnings == StandCredit(reply.outcome.value, old(bet))
          && message == StandMessageAsWritten(reply.outcome.value, shown, old(bet))
          && gameOver && !gameStarted && !hideSecondCard
          && Status() == "Game Over"
        else
          && balance == old(balance) && winnings == old(winnings) && message == shown
          && gameOver == old(gameOver) && gameStarted == old(gameStarted)
          && hideSecondCard == old(hideSecondCard)
      ensures bet == old(bet) && hasBet == old(hasBet) && playerHand == old(playerHand)
    {
      if Truthy(reply.dealer) {
        dealerHand := ParseHand(reply.dealer.value);
      }
      if Truthy(reply.result) {
        isBusted := BustFlagAsWritten(reply.result.value);
        message := reply.result.value;
      }
      if Truthy(reply.outcome) {
        EndRound(StandCredit(reply.outcome.value, bet), StandMessageAsWritten(reply.outcome.value, message, bet));
      }
    }

    /**
     * The common tail of the stand and double-down handlers: credit the amount won,
     * show the summary, record the winnings, end the game and reveal the dealer's
     * hidden card.
     */
    method EndRound(wonAmount: nat, summary: string)
      modifies this`balance, this`message, this`winnings, this`gameOver, this`gameStarted, this`hideSecondCard
      ensures balance == old(balance) + wonAmount && winnings == wonAmount && message == summary
      ensures gameOver && !gameStarted && !hideSecondCard && Status() == "Game Over"
    {
      balance := balance + wonAmount;
      message := summary;
      winnings := wonAmount;
      gameOver := true;
      gameStarted := false;
      hideSecondCard := false;
    }

    /**
     * GameBoard.jsx `handleDoubleDown`, given the double-down reply and the reply of
     * the `stand` that follows it: attempted only when the balance covers the bet;
     * then the bet is taken a second time and doubled, and the round is settled on
     * the bet as it was before doubling with `DoubleDownCreditAsWritten`, the
     * summary chosen by `DoubleDownMessageAsWritten`.
     */
    method DoubleDown(doubleReply: Reply, standReply: Reply) returns (attempted: bool)
      modifies this`playerHand, this`balance, this`bet, this`dealerHand, this`message,
        this`winnings, this`gameOver, this`gameStarted, this`hideSecondCard
      ensures attempted <==> old(balance) >= old(bet)
      ensures attempted ==>
        var outcome := if standReply.outcome.Some? then standReply.outcome.value else "";
        var credit := DoubleDownCreditAsWritten(outcome, old(bet));
        && bet == 2 * old(bet)
        && balance == old(balance) - old(bet) + credit
        && winnings == credit
        && message == DoubleDownMessageAsWritten(outcome, old(message), credit)
        && playerHand == (if Truthy(doubleReply.player) then ParseHand(doubleReply.player.value) else old(playerHand))
        && dealerHand == (if Truthy(standReply.dealer) then ParseHand(standReply.dealer.value) else old(dealerHand))
        && gameOver && !gameStarted && !hideSecondCard && Status() == "Game Over"
      ensures attempted && old(balance) >= 0 ==> balance >= 0
      ensures !attempted ==>
        && balance == old(balance) && bet == old(bet) && winnings == old(winnings)
        && message == old(message) && gameOver == old(gameOver) && gameStarted == old(gameStarted)
        && playerHand == old(playerHand) && dealerHand == old(dealerHand)
        && hideSecondCard == old(hideSecondCard)
      ensures hasBet == old(hasBet) && isBusted == old(isBusted)
    {
      if balance < bet {
        return false;
      }
      attempted := true;
      var stake := bet;
      if Truthy(doubleReply.player) {
        playerHand := ParseHand(doubleReply.player.value);
      }
      balance := balance - stake;
      bet := 2 * bet;
      if Truthy(standReply.dealer) {
        dealerHand := ParseHand(standReply.dealer.value);
      }
      var outcome := if standReply.outcome.Some? then standReply.outcome.value else "";
      var wonAmount := DoubleDownCreditAsWritten(outcome, stake);
      EndRound(wonAmount, DoubleDownMessageAsWritten(outcome, message, wonAmount));
    }
  }
}
