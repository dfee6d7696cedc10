/**
 * The HTTP handlers of Backend/main.go, as far as they decide what to send: each
 * one changes the single global game and picks the JSON fields of its reply.
 */
module Server {
  import opened Options
  import opened Cards
  import opened Scoring
  import opened Wire
  import opened Engine

  /** A JSON reply: each field is either present with its text or absent. */
  datatype Reply = Reply(
    message: Option<string>,
    player: Option<string>,
    dealer: Option<string>,
    result: Option<string>,
    outcome: Option<string>)

  /**
   * Backend/main.go `startGame`: deal a new round and show the whole player hand
   * but only the dealer's first card.
   */
  method StartGameHandler(game: Game) returns (reply: Reply)
    requires game.Valid()
    modifies game
    ensures game.Valid()
    ensures |game.playerHand| == 2 && |game.dealerHand| == 2
    ensures game.drawn == old(game.drawn) + game.playerHand + game.dealerHand
    ensures |old(game.deck)| >= 2 ==> game.playerHand == old(game.deck)[..2]
    ensures |old(game.deck)| >= 4 ==>
      && game.playerHand == old(game.deck)[..2] && game.dealerHand == old(game.deck)[2..4]
      && game.deck == old(game.deck)[4..]
    ensures AllStandard(game.playerHand) && AllStandard(game.dealerHand)
    ensures reply == Reply(Some("Game started. Cards dealt."), Some(HandText(game.playerHand)),
                           Some(HandText(game.dealerHand[..1])), None, None)
  {
    game.StartGame();
    var player := HandToString(game.playerHand);
    var dealer := HandToString(game.dealerHand[..1]);
    reply := Reply(Some("Game started. Cards dealt."), Some(player), Some(dealer), None, None);
  }

  /**
   * Backend/main.go `hit`: one card for the player; the reply carries a result and
   * an outcome exactly when the player's hand is then over 21, and that result is
   * always the player-bust loss.
   */
  method HitHandler(game: Game) returns (reply: Reply)
    requires game.Valid()
    modifies game
    ensures game.Valid()
    ensures game.dealerHand == old(game.dealerHand)
    ensures |game.drawn| == |old(game.drawn)| + 1
    ensures game.playerHand == old(game.playerHand) + game.drawn[|old(game.drawn)|..]
    ensures old(game.deck) != [] ==>
      game.playerHand == old(game.playerHand) + [old(game.deck)[0]] && game.deck == old(game.deck)[1..]
    ensures AllStandard(game.drawn[|old(game.drawn)|..])
    ensures AllStandard(old(game.playerHand)) ==> AllStandard(game.playerHand)
    ensures reply.player == Some(HandText(game.playerHand))
    ensures reply.message.None? && reply.dealer.None?
    ensures reply.result.Some? <==> HandValue(game.playerHand) > 21
    ensures reply.outcome.Some? <==> HandValue(game.playerHand) > 21
    ensures HandValue(game.playerHand) > 21 ==>
      reply.result == Some("Player busts, dealer wins!") && reply.outcome == Some("loss")
  {
    game.PlayerHit();
    var playerScore := CalculateHandValue(game.playerHand);
    var player := HandToString(game.playerHand);
    if playerScore > 21 {
      var result, outcome := game.CheckOutcome();
      reply := Reply(None, Some(player), None, Some(result), Some(outcome));
    } else {
      reply := Reply(None, Some(player), None, None, None);
    }
  }

  /**
   * Backend/main.go `stand`: the dealer plays out, and the reply always carries the
   * whole dealer hand, the result text and the outcome of `CheckOutcome`.
   */
  method StandHandler(game: Game) returns (reply: Reply)
    requires game.Valid()
    modifies game
    ensures game.Valid()
    ensures game.playerHand == old(game.playerHand)
    ensures HandValue(game.dealerHand) >= 17
    ensures |old(game.drawn)| <= |game.drawn|
    ensures game.dealerHand == old(game.dealerHand) + game.drawn[|old(game.drawn)|..]
    ensures var k := |game.dealerHand| - |old(game.dealerHand)|;
      k <= |old(game.deck)| ==>
        game.dealerHand == old(game.dealerHand) + old(game.deck)[..k] && game.deck == old(game.deck)[k..]
    ensures HandValue(old(game.dealerHand)) >= 17 ==>
      game.dealerHand == old(game.dealerHand) && game.deck == old(game.deck)
    ensures AllStandard(game.drawn[|old(game.drawn)|..])
    ensures AllStandard(old(game.dealerHand)) ==> AllStandard(game.dealerHand)
    ensures var (result, outcome) := Verdict(HandValue(game.playerHand), HandValue(game.dealerHand), |game.playerHand|);
      reply == Reply(None, None, Some(HandText(game.dealerHand)), Some(result), Some(outcome))
  {
    game.PlayerStand();
    var result, outcome := game.CheckOutcome();
    var dealer := HandToString(game.dealerHand);
    reply := Reply(None, None, Some(dealer), Some(result), Some(outcome));
  }
}
