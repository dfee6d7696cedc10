/**
 * The hand handling of Frontend/src/components/GameBoard/GameBoard.jsx: parsing
 * the server's hand text back into card objects, the split test, and the
 * client's own copy of the hand evaluator.
 */
module ClientHands {
  import opened Options
  import opened Text
  import opened Cards
  import opened Scoring
  import opened Wire

  /** A card object on the client; a card text without " of " leaves `Suit` undefined (None). */
  datatype ClientCard = ClientCard(value: string, suit: Option<string>)

  /** GameBoard.jsx `parseCard`: `const [value, suit] = cardStr.split(' of ')`. */
  function ParseCard(text: string): ClientCard {
    var parts := Split(text, " of ");
    ClientCard(parts[0], if |parts| > 1 then Some(parts[1]) else None)
  }

  /** `data.x ? data.x.split(', ').map(parseCard) : []`: an empty string is falsy and gives no cards. */
  function ParseHand(text: string): seq<ClientCard> {
    if text == "" then []
    else
      var pieces := Split(text, ", ");
      seq(|pieces|, i requires 0 <= i < |pieces| => ParseCard(pieces[i]))
  }

  /** The client object for a server card. */
  function ToClient(c: Card): ClientCard {
    ClientCard(c.value, Some(c.suit))
  }

  /** The client objects for a server hand, in hand order. */
  function ClientView(hand: seq<Card>): (view: seq<ClientCard>)
    ensures |view| == |hand|
    ensures forall i :: 0 <= i < |hand| ==> view[i] == ToClient(hand[i])
  {
    seq(|hand|, i requires 0 <= i < |hand| => ToClient(hand[i]))
  }

  /**
   * Parsing inverts serializing: the client reads back exactly the server's hand,
   * card by card and in order, for every hand of plain cards (the empty hand too).
   */
  lemma ParseHandText(hand: seq<Card>)
    requires forall i :: 0 <= i < |hand| ==> Plain(hand[i])
    ensures ParseHand(HandText(hand)) == ClientView(hand)
  {
    HandTextEmpty(hand);
    if hand != [] {
      SplitHandText(hand);
      var pieces := Split(HandText(hand), ", ");
      forall i | 0 <= i < |hand| ensures ParseCard(pieces[i]) == ToClient(hand[i]) {
        SplitCardText(hand[i]);
      }
    }
  }

  /** The `startGame` reply lets the client see exactly one dealer card: the first. */
  lemma DealerShowsFirstCardOnly(dealer: seq<Card>)
    requires |dealer| >= 1 && Plain(dealer[0])
    ensures ParseHand(HandText(dealer[..1])) == [ToClient(dealer[0])]
  {
    ParseHandText(dealer[..1]);
  }

  /** GameBoard.jsx `checkIfCanSplit`: two cards of the same value, whatever their suits. */
  function CanSplit(hand: seq<ClientCard>): bool {
    |hand| == 2 && hand[0].value == hand[1].value
  }

  /**
   * On a hand read back from the server, the split button appears exactly when the
   * server's hand holds two cards of equal value; suits play no part.
   */
  lemma CanSplitOnServerHand(hand: seq<Card>)
    requires forall i :: 0 <= i < |hand| ==> Plain(hand[i])
    ensures CanSplit(ParseHand(HandText(hand))) <==> |hand| == 2 && hand[0].value == hand[1].value
  {
    ParseHandText(hand);
  }

  /** The points the client adds for a card: `NaN` (None) for a value `parseInt` cannot read. */
  function ClientPoints(value: string): Option<nat> {
    if IsFace(value) then Some(10)
    else if value == "A" then Some(11)
    else ParseInt(value)
  }

  /** JavaScript addition where `NaN` absorbs everything. */
  function Plus(a: Option<nat>, b: Option<nat>): Option<nat> {
    if a.Some? && b.Some? then Some(a.value + b.value) else None
  }

  /** The client's hard sum (aces as 1), or None once any card reads as `NaN`. */
  function ClientHardSum(hand: seq<ClientCard>): Option<nat> {
    if hand == [] then Some(0)
    else
      var last := hand[|hand| - 1].value;
      Plus(ClientHardSum(hand[..|hand| - 1]), if last == "A" then Some(1) else ClientPoints(last))
  }

  /** The number of aces the client counts. */
  function ClientAces(hand: seq<ClientCard>): nat {
    if hand == [] then 0
    else ClientAces(hand[..|hand| - 1]) + (if hand[|hand| - 1].value == "A" then 1 else 0)
  }

  /** What the client evaluator yields: the best total, or `NaN` when a value is unreadable. */
  function ClientValue(hand: seq<ClientCard>): Option<nat> {
    match ClientHardSum(hand)
    case None => None
    case Some(hard) => Some(Best(hard, ClientAces(hand)))
  }

  /** One more card extends the client's hard sum and ace count by that card alone. */
  lemma ClientCountsStep(hand: seq<ClientCard>, i: nat)
    requires i < |hand|
    ensures ClientHardSum(hand[..i + 1]) ==
      Plus(ClientHardSum(hand[..i]), if hand[i].value == "A" then Some(1) else ClientPoints(hand[i].value))
    ensures ClientAces(hand[..i + 1]) == ClientAces(hand[..i]) + (if hand[i].value == "A" then 1 else 0)
  {
    assert hand[..i + 1][..i] == hand[..i];
  }

  /**
   * GameBoard.jsx `calculateHandValue`: add 10, 11 or `parseInt` per card, then
   * take 10 off per ace while the total is over 21 (`NaN > 21` is false).
   */
  method CalculateClientHandValue(hand: seq<ClientCard>) returns (value: Option<nat>)
    ensures value == ClientValue(hand)
  {
    value := Some(0);
    var aces := 0;
    for i := 0 to |hand|
      invariant aces == ClientAces(hand[..i])
      invariant value == Plus(ClientHardSum(hand[..i]), Some(10 * aces))
    {
      ClientCountsStep(hand, i);
      var v := hand[i].value;
      if v == "J" || v == "Q" || v == "K" {
        value := Plus(value, Some(10));
      } else if v == "A" {
        aces := aces + 1;
        value := Plus(value, Some(11));
      } else {
        value := Plus(value, ParseInt(v));
      }
    }
    assert hand[..|hand|] == hand;
    while value.Some? && value.value > 21 && aces > 0
      invariant 0 <= aces <= ClientAces(hand)
      invariant value.Some? <==> ClientHardSum(hand).Some?
      invariant value.Some? ==> value.value == ClientHardSum(hand).value + 10 * aces
      invariant value.Some? ==> aces == ClientAces(hand) || value.value + 10 > 21
    {
      value := Some(value.value - 10);
      aces := aces - 1;
    }
    if value.Some? {
      DemotionReachesBest(ClientHardSum(hand).value, ClientAces(hand), aces);
    }
  }

  /** A value both evaluators read the same way: a face card, an ace or a numeral. */
  predicate Readable(value: string) {
    IsFace(value) || value == "A" || IsNumeral(value)
  }

  /** On readable values the client's counts match the server's. */
  lemma {:induction false} ClientCountsAgree(hand: seq<Card>)
    requires forall i :: 0 <= i < |hand| ==> Readable(hand[i].value)
    ensures ClientHardSum(ClientView(hand)) == Some(HardSum(hand))
    ensures ClientAces(ClientView(hand)) == AceCount(hand)
    decreases |hand|
  {
    if hand != [] {
      var init := hand[..|hand| - 1];
      assert ClientView(hand)[..|hand| - 1] == ClientView(init);
      ClientCountsAgree(init);
    }
  }

  /**
   * The client evaluator computes the same total as the server's
   * `calculateHandValue` for every hand of readable values, so for every hand the
   * shoe can deal.
   */
  lemma ClientValueAgrees(hand: seq<Card>)
    requires forall i :: 0 <= i < |hand| ==> Readable(hand[i].value)
    ensures ClientValue(ClientView(hand)) == Some(HandValue(hand))
  {
    ClientCountsAgree(hand);
  }

  /** Every standard value is readable. */
  lemma StandardIsReadable(c: Card)
    requires IsStandard(c)
    ensures Readable(c.value)
  {
  }

  /**
   * A hand the server deals holds only standard cards, so the client parses its
   * wire text back into that hand and scores it as the server does.
   */
  lemma ServerHandRoundTrip(hand: seq<Card>)
    requires AllStandard(hand)
    ensures ParseHand(HandText(hand)) == ClientView(hand)
    ensures ClientValue(ParseHand(HandText(hand))) == Some(HandValue(hand))
  {
    forall i | 0 <= i < |hand| ensures Plain(hand[i]) && Readable(hand[i].value) {
      StandardIsPlain(hand[i]);
      StandardIsReadable(hand[i]);
    }
    ParseHandText(hand);
    ClientValueAgrees(hand);
  }
}
