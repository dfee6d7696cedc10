/**
 * The `Game` object of Backend/game.go: the shoe (`Deck`), the player's hand and
 * the dealer's hand, and the operations that deal from the shoe.
 */
module Engine {
  import opened Cards
  import opened Scoring
  import opened Shoe

  class Game {
    /** The undealt cards; `drawCard` takes from the front. */
    var deck: seq<Card>
    var playerHand: seq<Card>
    var dealerHand: seq<Card>

    /** Every card dealt over the game's life, oldest first. */
    ghost var drawn: seq<Card>
    /** The index in `drawn` where the current shoe was built and shuffled. */
    ghost var generation: nat

    /**
     * The shoe is conserved: the cards dealt since the last shuffle together with
     * the undealt ones are exactly one full 8-deck shoe.
     */
    ghost predicate Valid()
      reads this`drawn, this`generation, this`deck
    {
      && generation <= |drawn|
      && IsShoe(multiset(drawn[generation..]) + multiset(deck))
    }

    /** Backend/game.go `NewGame`: empty hands and a freshly shuffled shoe. */
    constructor ()
      ensures Valid()
      ensures playerHand == [] && dealerHand == [] && drawn == []
      ensures IsShoe(multiset(deck)) && |deck| == 416
    {
      deck, playerHand, dealerHand := [], [], [];
      drawn, generation := [], 0;
      new;
      InitDeck();
      assert multiset(drawn[generation..]) + multiset(deck) == multiset(deck);
    }

    /**
     * Backend/game.go `initDeck`: build 8 ordered decks (values inside suits
     * inside decks), then shuffle them.
     */
    method InitDeck()
      modifies this`deck
      ensures |deck| == 416
      ensures IsShoe(multiset(deck))
    {
      deck := [];
      for i := 0 to DeckCount
        invariant deck == Ordered(i)
      {
        AppendPack(i);
      }
      assert deck == FullShoe();
      Shuffle();
      FullShoeIsShoe(deck);
    }

    /** One pass of the deck loop of `initDeck`: every suit, and within it every value. */
    method AppendPack(ghost i: nat)
      requires deck == Ordered(i)
      modifies this`deck
      ensures deck == Ordered(i + 1)
    {
      ghost var base := Ordered(i);
      for si := 0 to |Suits|
        invariant deck == base + SuitRuns(Values, Suits[..si])
      {
        ghost var done := SuitRuns(Values, Suits[..si]);
        AppendSuit(base + done, Suits[si]);
        SuitRunsStep(Values, Suits, si);
        AppendRegroup(base, done, SuitRun(Values, Suits[si]));
      }
      assert Suits[..|Suits|] == Suits;
    }

    /** The innermost loop of `initDeck`: one card of `suit` per value, values in order. */
    method AppendSuit(ghost prefix: seq<Card>, suit: string)
      requires deck == prefix
      modifies this`deck
      ensures deck == prefix + SuitRun(Values, suit)
    {
      for vi := 0 to |Values|
        invariant deck == prefix + SuitRun(Values[..vi], suit)
      {
        SuitRunStep(Values, suit, vi);
        AppendRegroup(prefix, SuitRun(Values[..vi], suit), [Card(Values[vi], suit)]);
        deck := deck + [Card(Values[vi], suit)];
      }
      assert Values[..|Values|] == Values;
    }

    /**
     * `rand.Shuffle` over the deck: Fisher-Yates from the back, each position
     * swapped with some position at or before it (which one is left open).
     */
    method Shuffle()
      modifies this`deck
      ensures |deck| == |old(deck)|
      ensures multiset(deck) == multiset(old(deck))
    {
      var i := |deck| - 1;
      while i > 0
        invariant i < |deck| && |deck| == |old(deck)|
        invariant multiset(deck) == multiset(old(deck))
      {
        var j :| 0 <= j <= i;
        deck := deck[i := deck[j]][j := deck[i]];
        i := i - 1;
      }
    }

    /**
     * Backend/game.go `drawCard`: rebuild the shoe when it is empty, then take
     * the front card.
     */
    method DrawCard() returns (card: Card)
      requires Valid()
      modifies this`deck, this`drawn, this`generation
      ensures Valid()
      ensures drawn == old(drawn) + [card]
      ensures IsStandard(card)
      ensures old(deck) != [] ==> card == old(deck)[0] && deck == old(deck)[1..]
      ensures old(deck) == [] ==> |deck| == 415 && IsShoe(multiset([card] + deck))
    {
      if |deck| == 0 {
        InitDeck();
        generation := |drawn|;
      }
      card := deck[0];
      ghost var shoe := deck;
      ghost var dealt := drawn[generation..];
      assert CountOf(multiset(drawn[generation..]) + multiset(deck), card) > 0;
      assert deck == [card] + deck[1..];
      assert multiset(deck) == multiset{card} + multiset(deck[1..]);
      deck := deck[1..];
      assert (drawn + [card])[generation..] == dealt + [card];
      drawn := drawn + [card];
      assert multiset(drawn[generation..]) + multiset(deck) == multiset(dealt) + multiset(shoe);
    }

    /** The hand literal `[]Card{g.drawCard(), g.drawCard()}`: two draws, left to right. */
    method DrawPair() returns (pair: seq<Card>)
      requires Valid()
      modifies this`deck, this`drawn, this`generation
      ensures Valid()
      ensures |pair| == 2 && drawn == old(drawn) + pair
      ensures |old(deck)| >= 2 ==> pair == old(deck)[..2] && deck == old(deck)[2..]
      ensures AllStandard(pair)
    {
      ghost var shoe := deck;
      var first := DrawCard();
      var second := DrawCard();
      pair := [first, second];
      if |shoe| >= 2 {
        assert deck == shoe[1..][1..];
      }
    }

    /**
     * Backend/game.go `StartGame`: discard both hands, deal the player the next
     * two cards and the dealer the two after those.
     */
    method StartGame()
      requires Valid()
      modifies this`deck, this`drawn, this`generation, this`playerHand, this`dealerHand
      ensures Valid()
      ensures |playerHand| == 2 && |dealerHand| == 2
      ensures drawn == old(drawn) + playerHand + dealerHand
      ensures |old(deck)| >= 2 ==> playerHand == old(deck)[..2]
      ensures |old(deck)| >= 4 ==>
        playerHand == old(deck)[..2] && dealerHand == old(deck)[2..4] && deck == old(deck)[4..]
      ensures AllStandard(playerHand) && AllStandard(dealerHand)
    {
      ghost var shoe := deck;
      playerHand := DrawPair();
      ghost var rest := deck;
      dealerHand := DrawPair();
      if |shoe| >= 4 {
        assert rest == shoe[2..];
        assert dealerHand == shoe[2..][..2];
      }
    }

    /** Backend/game.go `PlayerHit`: one more card at the end of the player's hand. */
    method PlayerHit()
      requires Valid()
      modifies this`deck, this`drawn, this`generation, this`playerHand
      ensures Valid()
      ensures |drawn| == |old(drawn)| + 1
      ensures playerHand == old(playerHand) + drawn[|old(drawn)|..]
      ensures old(deck) != [] ==> playerHand == old(playerHand) + [old(deck)[0]] && deck == old(deck)[1..]
      ensures AllStandard(drawn[|old(drawn)|..])
      ensures AllStandard(old(playerHand)) ==> AllStandard(playerHand)
    {
      var card := DrawCard();
      playerHand := playerHand + [card];
    }

    /**
     * Backend/game.go `PlayerStand`: the dealer draws while the hand is worth less
     * than 17. Afterwards the dealer holds at least 17, the old hand is a prefix of
     * the new one, every card added was drawn while the hand was below 17, and a
     * dealer already on 17 or more draws nothing.
     */
    method PlayerStand()
      requires Valid()
      modifies this`deck, this`drawn, this`generation, this`dealerHand
      ensures Valid()
      ensures playerHand == old(playerHand)
      ensures HandValue(dealerHand) >= 17
      ensures |old(drawn)| <= |drawn| && dealerHand == old(dealerHand) + drawn[|old(drawn)|..]
      ensures forall k :: |old(dealerHand)| <= k < |dealerHand| ==> HandValue(dealerHand[..k]) < 17
      ensures HandValue(old(dealerHand)) >= 17 ==>
        dealerHand == old(dealerHand) && deck == old(deck) && drawn == old(drawn)
      ensures var k := |dealerHand| - |old(dealerHand)|;
        k <= |old(deck)| ==> dealerHand == old(dealerHand) + old(deck)[..k] && deck == old(deck)[k..]
      ensures AllStandard(drawn[|old(drawn)|..])
      ensures AllStandard(old(dealerHand)) ==> AllStandard(dealerHand)
    {
      var value := CalculateHandValue(dealerHand);
      ghost var added: seq<Card> := [];
      while value < 17
        invariant Valid()
        invariant value == HandValue(dealerHand)
        invariant dealerHand == old(dealerHand) + added && drawn == old(drawn) + added
        invariant DrewBelow17(|old(dealerHand)|, dealerHand)
        invariant added != [] ==> HandValue(old(dealerHand)) < 17
        invariant TakenFromFront(old(deck), added, deck) && AllStandard(added)
        decreases 17 - HardSum(dealerHand)
      {
        DealerBelow17(dealerHand);
        ghost var before, undealt := dealerHand, deck;
        var card := DrawCard();
        DealerDrawStep(|old(dealerHand)|, before, card);
        FrontStep(old(deck), added, undealt, card, deck);
        Regroup(old(drawn), added, card);
        Regroup(old(dealerHand), added, card);
        dealerHand := dealerHand + [card];
        added := added + [card];
        value := CalculateHandValue(dealerHand);
      }
      assert drawn[|old(drawn)|..] == added;
      assert added == [] ==> deck == old(deck)[0..] == old(deck);
      StandardJoin(old(dealerHand), added);
    }

    /**
     * Backend/game.go `CheckOutcome`: score both hands and apply the priority
     * chain of `Verdict`.
     */
    method CheckOutcome() returns (result: string, outcome: string)
      ensures (result, outcome) == Verdict(HandValue(playerHand), HandValue(dealerHand), |playerHand|)
    {
      var playerScore := CalculateHandValue(playerHand);
      var dealerScore := CalculateHandValue(dealerHand);
      result, outcome := Verdict(playerScore, dealerScore, |playerHand|).0, Verdict(playerScore, dealerScore, |playerHand|).1;
    }
  }

  /** A standard card added to standard cards. */
  lemma StandardSnoc(cards: seq<Card>, card: Card)
    requires AllStandard(cards) && IsStandard(card)
    ensures AllStandard(cards + [card])
  {
  }

  /**
   * `taken` are the first cards of `deck0` and `deck` is what remains of it, as
   * long as the deck has not run out and been rebuilt.
   */
  ghost predicate TakenFromFront(deck0: seq<Card>, taken: seq<Card>, deck: seq<Card>) {
    |taken| <= |deck0| ==> taken == deck0[..|taken|] && deck == deck0[|taken|..]
  }

  /** Two runs of standard cards joined are still standard cards. */
  lemma StandardJoin(front: seq<Card>, back: seq<Card>)
    ensures AllStandard(front) && AllStandard(back) ==> AllStandard(front + back)
  {
    if AllStandard(front) && AllStandard(back) {
      forall i | 0 <= i < |front + back|
        ensures IsStandard((front + back)[i])
      {
        if i >= |front| {
          assert (front + back)[i] == back[i - |front|];
        }
      }
    }
  }

  /** Every prefix of `hand` at least `n` cards long, short of the whole hand, is worth less than 17. */
  ghost predicate DrewBelow17(n: nat, hand: seq<Card>) {
    forall k :: n <= k < |hand| ==> HandValue(hand[..k]) < 17
  }

  /** Appending one card to `a + b` appends it to `b`. */
  lemma Regroup(a: seq<Card>, b: seq<Card>, card: Card)
    ensures (a + b) + [card] == a + (b + [card])
  {
  }

  /** Appending a run to `a + b` appends it to `b`. */
  lemma AppendRegroup(a: seq<Card>, b: seq<Card>, run: seq<Card>)
    ensures (a + b) + run == a + (b + run)
  {
  }

  /**
   * Drawing from the front keeps the cards taken so far a prefix of the original
   * deck, as long as the deck has not run out and been rebuilt.
   */
  lemma FrontStep(deck0: seq<Card>, taken: seq<Card>, before: seq<Card>, card: Card, after: seq<Card>)
    requires TakenFromFront(deck0, taken, before) && AllStandard(taken)
    requires before != [] ==> card == before[0] && after == before[1..]
    requires IsStandard(card)
    ensures TakenFromFront(deck0, taken + [card], after) && AllStandard(taken + [card])
  {
    StandardSnoc(taken, card);
    if |taken| + 1 <= |deck0| {
      assert deck0[..|taken| + 1] == deck0[..|taken|] + [deck0[|taken|]];
    }
  }

  /** Before a draw of the dealer loop: a hand below 17 has a hard sum below 17. */
  lemma DealerBelow17(hand: seq<Card>)
    requires HandValue(hand) < 17
    ensures HardSum(hand) < 17
  {
    HandValueBounds(hand);
  }

  /**
   * One draw of the dealer loop: a hand below 17 grows by a standard card, so its
   * hard sum strictly rises, and every prefix from `n` cards on is still below 17.
   */
  lemma DealerDrawStep(n: nat, before: seq<Card>, card: Card)
    requires IsStandard(card)
    requires n <= |before| && HandValue(before) < 17 && DrewBelow17(n, before)
    ensures HardSum(before) < HardSum(before + [card])
    ensures DrewBelow17(n, before + [card])
  {
    var after := before + [card];
    assert after[..|before|] == before;
    StandardHardPoints(card.value);
    forall k | n <= k < |after| ensures HandValue(after[..k]) < 17 {
      assert after[..k] == before[..k];
    }
  }
}
