/**
 * The playing card of Backend/game.go: a value string and a suit string, and
 * the point each value scores when a hand is evaluated.
 */
module Cards {
  import opened Text

  datatype Card = Card(value: string, suit: string)

  /** The suits, in the order the deck-building loop visits them. */
  const Suits: seq<string> := ["Hearts", "Diamonds", "Clubs", "Spades"]

  /** The thirteen values, in the order the deck-building loop visits them. */
  const Values: seq<string> := ["2", "3", "4", "5", "6", "7", "8", "9", "10", "J", "Q", "K", "A"]

  /** A card the deck builder can produce. */
  predicate IsStandard(c: Card) {
    c.value in Values && c.suit in Suits
  }

  /** Every card of `cards` is one the deck builder can produce. */
  predicate AllStandard(cards: seq<Card>) {
    forall i :: 0 <= i < |cards| ==> IsStandard(cards[i])
  }

  /** No string appears twice. */
  predicate Distinct(names: seq<string>) {
    forall i, j :: 0 <= i < j < |names| ==> names[i] != names[j]
  }

  predicate IsFace(value: string) {
    value == "J" || value == "Q" || value == "K"
  }

  /**
   * The points the evaluator adds for one card before any ace is demoted:
   * 10 for a face card, 11 for an ace, the Atoi reading of anything else.
   */
  function Points(value: string): nat {
    if IsFace(value) then 10
    else if value == "A" then 11
    else Atoi(value)
  }

  /** The points of a card with an ace counted as 1 (a "hard" count). */
  function HardPoints(value: string): nat {
    if value == "A" then 1 else Points(value)
  }

  /** Every standard value is worth between 1 and 10 in a hard count. */
  lemma StandardHardPoints(value: string)
    requires value in Values
    ensures 1 <= HardPoints(value) <= 10
  {
    assert DecimalValue("1") == 1;
    assert IsNumeral("10") && DecimalValue("10") == 10;
  }

  lemma DistinctValuesAndSuits()
    ensures Distinct(Values) && Distinct(Suits)
  {
  }
}
