/**
 * The hand serializer of Backend/main.go, `handToString`: each card as
 * "<Value> of <Suit>", the cards joined by ", ".
 */
module Wire {
  import opened Text
  import opened Cards

  /** One card on the wire. */
  function CardText(c: Card): string {
    c.value + " of " + c.suit
  }

  /** The wire text of each card, in hand order. */
  function CardTexts(hand: seq<Card>): (texts: seq<string>)
    ensures |texts| == |hand|
    ensures forall i :: 0 <= i < |hand| ==> texts[i] == CardText(hand[i])
  {
    seq(|hand|, i requires 0 <= i < |hand| => CardText(hand[i]))
  }

  /** A hand on the wire: its card texts joined by ", ". */
  function HandText(hand: seq<Card>): string {
    Join(CardTexts(hand), ", ")
  }

  /** What the loop of `handToString` has built after the given cards: each card text followed by ", ". */
  function Accumulated(cards: seq<Card>): string {
    if cards == [] then "" else Accumulated(cards[..|cards| - 1]) + CardText(cards[|cards| - 1]) + ", "
  }

  /** Appending a piece to a non-empty list adds the separator and the piece at the end of the join. */
  lemma {:induction false} JoinSnoc(pieces: seq<string>, p: string, sep: string)
    requires |pieces| >= 1
    ensures Join(pieces + [p], sep) == Join(pieces, sep) + sep + p
    decreases |pieces|
  {
    if |pieces| > 1 {
      JoinSnoc(pieces[1..], p, sep);
      assert (pieces + [p])[1..] == pieces[1..] + [p];
    }
  }

  /** The accumulated text of a non-empty hand is the hand text with a trailing ", ". */
  lemma {:induction false} AccumulatedIsHandText(cards: seq<Card>)
    requires cards != []
    ensures Accumulated(cards) == HandText(cards) + ", "
    decreases |cards|
  {
    var init, last := cards[..|cards| - 1], cards[|cards| - 1];
    if init != [] {
      AccumulatedIsHandText(init);
      assert CardTexts(cards) == CardTexts(init) + [CardText(last)];
      JoinSnoc(CardTexts(init), CardText(last), ", ");
    } else {
      assert CardTexts(cards) == [CardText(last)];
    }
  }

  /**
   * Backend/main.go `handToString`: append "V of S, " per card, then cut the last
   * two characters off a non-empty result.
   */
  method HandToString(hand: seq<Card>) returns (text: string)
    ensures text == HandText(hand)
  {
    var handStr := "";
    for i := 0 to |hand|
      invariant handStr == Accumulated(hand[..i])
    {
      assert hand[..i + 1][..i] == hand[..i];
      handStr := handStr + hand[i].value + " of " + hand[i].suit + ", ";
    }
    assert hand[..|hand|] == hand;
    if |handStr| > 0 {
      AccumulatedIsHandText(hand);
      handStr := handStr[..|handStr| - 2];
    }
    text := handStr;
  }

  /** The empty hand serializes to the empty string, and only the empty hand does. */
  lemma HandTextEmpty(hand: seq<Card>)
    ensures HandText(hand) == "" <==> hand == []
  {
    if hand != [] {
      var texts := CardTexts(hand);
      if |hand| > 1 {
        assert HandText(hand) == texts[0] + ", " + Join(texts[1..], ", ");
      }
      assert |HandText(hand)| >= |CardText(hand[0])| >= 4;
    }
  }

  /** A card whose value and suit hold no comma and no space: the wire format can carry it unambiguously. */
  predicate Plain(c: Card) {
    Avoids(c.value, ',') && Avoids(c.value, ' ') && Avoids(c.suit, ',') && Avoids(c.suit, ' ')
  }

  /** Every card the deck builder makes is plain. */
  lemma StandardIsPlain(c: Card)
    requires IsStandard(c)
    ensures Plain(c)
  {
  }

  /**
   * Splitting the wire text of a hand of plain cards on ", " gives exactly one
   * piece per card, in hand order.
   */
  lemma SplitHandText(hand: seq<Card>)
    requires hand != []
    requires forall i :: 0 <= i < |hand| ==> Plain(hand[i])
    ensures Split(HandText(hand), ", ") == CardTexts(hand)
  {
    var texts := CardTexts(hand);
    forall k | 0 <= k < |texts| ensures Avoids(texts[k], ", "[0]) {
      var c := hand[k];
      assert texts[k] == c.value + " of " + c.suit;
      forall m | 0 <= m < |texts[k]| ensures texts[k][m] != ',' {
        if m < |c.value| {
          assert texts[k][m] == c.value[m];
        } else if m >= |c.value| + 4 {
          assert texts[k][m] == c.suit[m - |c.value| - 4];
        }
      }
    }
    SplitJoin(texts, ", ");
  }

  /** Splitting one plain card's text on " of " gives its value and its suit. */
  lemma SplitCardText(c: Card)
    requires Plain(c)
    ensures Split(CardText(c), " of ") == [c.value, c.suit]
  {
    assert Join([c.value, c.suit], " of ") == CardText(c);
    SplitJoin([c.value, c.suit], " of ");
  }
}
