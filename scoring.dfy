/**
 * Hand evaluation and the outcome decision of Backend/game.go:
 * `calculateHandValue` and the priority chain of `CheckOutcome`.
 */
module Scoring {
  import opened Text
  import opened Cards

  /** The sum of a hand with every ace counted as 1. */
  function HardSum(hand: seq<Card>): nat {
    if hand == [] then 0
    else HardSum(hand[..|hand| - 1]) + HardPoints(hand[|hand| - 1].value)
  }

  /** The number of aces in a hand. */
  function AceCount(hand: seq<Card>): nat {
    if hand == [] then 0
    else AceCount(hand[..|hand| - 1]) + (if hand[|hand| - 1].value == "A" then 1 else 0)
  }

  function Min(a: int, b: int): int { if a <= b then a else b }

  /** `hard` with `k` of the aces raised from 1 to 11. */
  function Raised(hard: nat, k: nat): nat { hard + 10 * k }

  /**
   * The best total of a hand whose hard sum is `hard` and which holds `aces` aces:
   * the hard sum itself once it is over 21, and otherwise the hard sum with as many
   * aces raised to 11 as fit under 22.
   */
  function Best(hard: nat, aces: nat): nat {
    if hard > 21 then hard else Raised(hard, Min(aces, (21 - hard) / 10))
  }

  /** The value `calculateHandValue` gives a hand. */
  function HandValue(hand: seq<Card>): nat {
    Best(HardSum(hand), AceCount(hand))
  }

  /**
   * Ace demotion, characterised: over 21 the total is the hard sum; otherwise it is
   * the largest hard sum plus a multiple of 10 that stays at most 21 without raising
   * more aces than the hand holds.
   */
  lemma BestIsLargestUnder22(hard: nat, aces: nat)
    ensures hard > 21 ==> Best(hard, aces) == hard
    ensures hard <= 21 ==>
      && Best(hard, aces) <= 21
      && (exists k: nat :: k <= aces && Best(hard, aces) == Raised(hard, k))
      && forall k: nat :: k <= aces && Raised(hard, k) <= 21 ==> Raised(hard, k) <= Best(hard, aces)
  {
    if hard <= 21 {
      var m := Min(aces, (21 - hard) / 10);
      assert Best(hard, aces) == Raised(hard, m);
    }
  }

  /** The total never falls below the hard sum and never exceeds it by more than 10 per ace. */
  lemma HandValueBounds(hand: seq<Card>)
    ensures HardSum(hand) <= HandValue(hand) <= HardSum(hand) + 10 * AceCount(hand)
    ensures HandValue(hand) > 21 <==> HardSum(hand) > 21
  {
  }

  /** One more card extends the hard sum and the ace count by that card alone. */
  lemma CountsStep(hand: seq<Card>, i: nat)
    requires i < |hand|
    ensures HardSum(hand[..i + 1]) == HardSum(hand[..i]) + HardPoints(hand[i].value)
    ensures AceCount(hand[..i + 1]) == AceCount(hand[..i]) + (if hand[i].value == "A" then 1 else 0)
  {
    assert hand[..i + 1][..i] == hand[..i];
  }

  /**
   * The demotion loop stops at the best total: once `k` of the `aces` aces are still
   * counted as 11 and the loop can neither continue (total at most 21, or no ace
   * left to demote) nor should have stopped earlier, the total is `Best`.
   */
  lemma DemotionReachesBest(hard: nat, aces: nat, k: nat)
    requires k <= aces
    requires k == aces || hard + 10 * k + 10 > 21
    requires !(hard + 10 * k > 21 && k > 0)
    ensures hard + 10 * k == Best(hard, aces)
  {
    if hard <= 21 {
      var m := (21 - hard) / 10;
      assert 10 * m <= 21 - hard < 10 * m + 10;
      if k < aces {
        assert k == m;
      } else {
        assert k <= m;
      }
    }
  }

  /**
   * Backend/game.go `calculateHandValue`: sum the cards with aces as 11, then
   * take 10 off per ace while the total is over 21.
   */
  method CalculateHandValue(hand: seq<Card>) returns (value: int)
    ensures value == HandValue(hand)
  {
    value := 0;
    var aces := 0;
    for i := 0 to |hand|
      invariant aces == AceCount(hand[..i])
      invariant value == HardSum(hand[..i]) + 10 * aces
    {
      CountsStep(hand, i);
      var card := hand[i];
      if card.value == "J" || card.value == "Q" || card.value == "K" {
        value := value + 10;
      } else if card.value == "A" {
        aces := aces + 1;
        value := value + 11;
      } else {
        value := value + Atoi(card.value);
      }
    }
    assert hand[..|hand|] == hand;
    while value > 21 && aces > 0
      invariant 0 <= aces <= AceCount(hand)
      invariant value == HardSum(hand) + 10 * aces
      invariant aces == AceCount(hand) || value + 10 > 21
    {
      value := value - 10;
      aces := aces - 1;
    }
    DemotionReachesBest(HardSum(hand), AceCount(hand), aces);
  }

  /**
   * Backend/game.go `CheckOutcome`, on the two scores and the number of cards in
   * the player's hand: the result text and the outcome word.
   */
  function Verdict(playerScore: int, dealerScore: int, playerCards: nat): (string, string) {
    if playerScore > 21 then ("Player busts, dealer wins!", "loss")
    else if dealerScore > 21 then ("Dealer busts, player wins!", "win")
    else if playerScore == 21 then ("Blackjack! Player wins!", "win")
    else if dealerScore == 21 then ("Blackjack! Dealer wins!", "loss")
    else if playerCards >= 5 && playerScore <= 21 then ("Player wins with 5 cards!", "win")
    else if playerScore > dealerScore then ("Player wins!", "win")
    else if dealerScore > playerScore then ("Dealer wins!", "loss")
    else ("It's a draw!", "draw")
  }

  /** The result texts that go with a win. */
  const WinTexts: set<string> :=
    {"Dealer busts, player wins!", "Blackjack! Player wins!", "Player wins with 5 cards!", "Player wins!"}

  /** The result texts that go with a loss. */
  const LossTexts: set<string> := {"Player busts, dealer wins!", "Blackjack! Dealer wins!", "Dealer wins!"}

  /**
   * Every pair of scores gets exactly one of "win", "loss", "draw", and the result
   * text always belongs to that outcome.
   */
  lemma VerdictIsTotal(playerScore: int, dealerScore: int, playerCards: nat)
    ensures var (text, outcome) := Verdict(playerScore, dealerScore, playerCards);
      && (outcome == "win" <==> text in WinTexts)
      && (outcome == "loss" <==> text in LossTexts)
      && (outcome == "draw" <==> text == "It's a draw!")
      && (outcome == "win" || outcome == "loss" || outcome == "draw")
  {
  }

  /**
   * The priority of the chain: a player bust loses even against a dealer bust, a
   * dealer bust wins, a player 21 wins even against a dealer 21, a dealer 21 loses,
   * five cards under 21 win whatever the totals, and only then do the totals compare.
   */
  lemma VerdictPriority(p: int, d: int, n: nat)
    ensures p > 21 ==> Verdict(p, d, n).1 == "loss"
    ensures p <= 21 && d > 21 ==> Verdict(p, d, n).1 == "win"
    ensures p == 21 ==> Verdict(p, d, n).1 == "win"
    ensures p < 21 && d == 21 ==> Verdict(p, d, n).1 == "loss"
    ensures p < 21 && d < 21 && n >= 5 ==> Verdict(p, d, n).1 == "win"
    ensures p < 21 && d < 21 && n < 5 ==>
      && (Verdict(p, d, n).1 == "win" <==> p > d)
      && (Verdict(p, d, n).1 == "loss" <==> p < d)
      && (Verdict(p, d, n).1 == "draw" <==> p == d)
  {
  }

  /** A draw only happens on equal totals under 21 with fewer than five player cards. */
  lemma DrawNeedsEqualTotals(p: int, d: int, n: nat)
    requires Verdict(p, d, n).1 == "draw"
    ensures p == d && p < 21 && n < 5
  {
  }

  /** The examples of the ace rule: A,A,9 is 21, K,A is 21, and 10,J,5 is a bust at 25. */
  lemma HandValueExamples()
    ensures HandValue([Card("A", "Spades"), Card("A", "Hearts"), Card("9", "Clubs")]) == 21
    ensures HandValue([Card("K", "Spades"), Card("A", "Hearts")]) == 21
    ensures HandValue([Card("10", "Spades"), Card("J", "Hearts"), Card("5", "Clubs")]) == 25
  {
    var a, b, c := Card("A", "Spades"), Card("A", "Hearts"), Card("9", "Clubs");
    assert IsNumeral("9") && Points("9") == 9;
    assert [a, b, c][..2] == [a, b] && [a, b][..1] == [a] && [a][..0] == [];
    assert HardPoints("A") == 1 && HardPoints("9") == 9;
    assert HardSum([a]) == 1 && HardSum([a, b]) == 2 && HardSum([a, b, c]) == 11;
    assert AceCount([a]) == 1 && AceCount([a, b]) == 2 && AceCount([a, b, c]) == 2;
    var k, a2 := Card("K", "Spades"), Card("A", "Hearts");
    assert [k, a2][..1] == [k] && [k][..0] == [];
    assert HardPoints("K") == 10;
    assert HardSum([k]) == 10 && HardSum([k, a2]) == 11;
    assert AceCount([k]) == 0 && AceCount([k, a2]) == 1;
    var t, j, f := Card("10", "Spades"), Card("J", "Hearts"), Card("5", "Clubs");
    assert IsNumeral("10") && DecimalValue("10") == 10 && Points("10") == 10;
    assert IsNumeral("5") && Points("5") == 5;
    assert [t, j, f][..2] == [t, j] && [t, j][..1] == [t] && [t][..0] == [];
    assert HardPoints("10") == 10 && HardPoints("J") == 10 && HardPoints("5") == 5;
    assert HardSum([t]) == 10 && HardSum([t, j]) == 20 && HardSum([t, j, f]) == 25;
  }
}
