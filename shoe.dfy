/**
 * The unshuffled 8-deck shoe that Backend/game.go `initDeck` builds with three
 * nested loops (decks, then suits, then values), and how often each card occurs in it.
 */
module Shoe {
  import opened Cards

  /** The number of 52-card decks in the shoe. */
  const DeckCount: nat := 8

  /** The cards of one suit over a list of values, in list order (the innermost loop). */
  function SuitRun(values: seq<string>, suit: string): (run: seq<Card>)
    ensures |run| == |values|
  {
    if values == [] then []
    else SuitRun(values[..|values| - 1], suit) + [Card(values[|values| - 1], suit)]
  }

  /** Every value of each suit in a list of suits, suit after suit (the middle loop). */
  function SuitRuns(values: seq<string>, suits: seq<string>): (cards: seq<Card>)
    ensures |cards| == |values| * |suits|
  {
    if suits == [] then []
    else SuitRuns(values, suits[..|suits| - 1]) + SuitRun(values, suits[|suits| - 1])
  }

  /** One more value extends a suit run by that value's card. */
  lemma SuitRunStep(values: seq<string>, suit: string, k: nat)
    requires k < |values|
    ensures SuitRun(values[..k + 1], suit) == SuitRun(values[..k], suit) + [Card(values[k], suit)]
  {
    assert values[..k + 1][..k] == values[..k];
  }

  /** One more suit extends the suit runs by that suit's run. */
  lemma SuitRunsStep(values: seq<string>, suits: seq<string>, k: nat)
    requires k < |suits|
    ensures SuitRuns(values, suits[..k + 1]) == SuitRuns(values, suits[..k]) + SuitRun(values, suits[k])
  {
    assert suits[..k + 1][..k] == suits[..k];
  }

  /** One ordered 52-card deck. */
  function Pack(): seq<Card> { SuitRuns(Values, Suits) }

  /** `n` copies of `pack` one after another. */
  function Repeat(pack: seq<Card>, n: nat): (cards: seq<Card>)
    ensures |cards| == |pack| * n
  {
    if n == 0 then [] else Repeat(pack, n - 1) + pack
  }

  /** `n` ordered decks one after another (the outer loop). */
  function Ordered(n: nat): (cards: seq<Card>)
    ensures |cards| == 52 * n
  {
    Repeat(Pack(), n)
  }

  /** The shoe before shuffling. */
  function FullShoe(): seq<Card> { Ordered(DeckCount) }

  /** Dropping the last name of a distinct list keeps it distinct and no longer holds that name. */
  lemma DistinctSnoc(names: seq<string>)
    requires |names| > 0 && Distinct(names)
    ensures Distinct(names[..|names| - 1]) && names[|names| - 1] !in names[..|names| - 1]
  {
    var init := names[..|names| - 1];
    forall i | 0 <= i < |init| ensures init[i] != names[|names| - 1] {
      assert init[i] == names[i];
    }
  }

  /** A name is in a non-empty list exactly when it is in all but the last, or is the last. */
  lemma InSnoc(names: seq<string>, x: string)
    requires |names| > 0
    ensures x in names <==> x in names[..|names| - 1] || x == names[|names| - 1]
  {
    assert names == names[..|names| - 1] + [names[|names| - 1]];
  }

  /** With distinct values, a suit run holds each of its cards once and nothing else. */
  lemma {:induction false} SuitRunCount(values: seq<string>, suit: string, c: Card)
    requires Distinct(values)
    ensures multiset(SuitRun(values, suit))[c] == if c.suit == suit && c.value in values then 1 else 0
    decreases |values|
  {
    if values != [] {
      var init, last := values[..|values| - 1], values[|values| - 1];
      DistinctSnoc(values);
      SuitRunCount(init, suit, c);
      ConcatCount(SuitRun(init, suit), [Card(last, suit)], c);
      InSnoc(values, c.value);
    }
  }

  /** With distinct values and suits, the suit runs hold each card of those values and suits once. */
  lemma {:induction false} SuitRunsCount(values: seq<string>, suits: seq<string>, c: Card)
    requires Distinct(values) && Distinct(suits)
    ensures multiset(SuitRuns(values, suits))[c] == if c.suit in suits && c.value in values then 1 else 0
    decreases |suits|
  {
    if suits != [] {
      var init, last := suits[..|suits| - 1], suits[|suits| - 1];
      DistinctSnoc(suits);
      SuitRunsCount(values, init, c);
      SuitRunCount(values, last, c);
      ConcatCount(SuitRuns(values, init), SuitRun(values, last), c);
      InSnoc(suits, c.suit);
    }
  }

  /** One ordered deck holds each standard card once. */
  lemma PackCount(c: Card)
    ensures multiset(Pack())[c] == if IsStandard(c) then 1 else 0
  {
    DistinctValuesAndSuits();
    SuitRunsCount(Values, Suits, c);
  }

  /** `n` copies of a sequence hold each card `n` times as often as one copy. */
  lemma {:induction false} RepeatCount(pack: seq<Card>, n: nat, c: Card)
    ensures multiset(Repeat(pack, n))[c] == n * multiset(pack)[c]
  {
    if n > 0 {
      var m := multiset(pack)[c];
      RepeatCount(pack, n - 1, c);
      ConcatCount(Repeat(pack, n - 1), pack, c);
      assert (n - 1) * m + m == n * m;
    }
  }

  /** `n` ordered decks hold each standard card `n` times and no other card. */
  lemma OrderedCount(n: nat, c: Card)
    ensures multiset(Ordered(n))[c] == if IsStandard(c) then n else 0
  {
    RepeatCount(Pack(), n, c);
    PackCount(c);
  }

  /** A card occurs in a concatenation as often as in its two parts together. */
  lemma ConcatCount(a: seq<Card>, b: seq<Card>, c: Card)
    ensures multiset(a + b)[c] == multiset(a)[c] + multiset(b)[c]
  {
    assert multiset(a + b) == multiset(a) + multiset(b);
  }

  /** The shoe has 416 cards: every one of the 52 standard cards 8 times, and nothing else. */
  lemma FullShoeContents()
    ensures |FullShoe()| == 416
    ensures forall c :: multiset(FullShoe())[c] == if IsStandard(c) then 8 else 0
  {
    forall c ensures multiset(FullShoe())[c] == if IsStandard(c) then 8 else 0 {
      OrderedCount(DeckCount, c);
    }
  }

  /** A multiset of cards with exactly the contents of a full shoe. */
  ghost predicate IsShoe(cards: multiset<Card>) {
    forall c {:trigger CountOf(cards, c)} :: CountOf(cards, c) == if IsStandard(c) then DeckCount else 0
  }

  /** How often `c` occurs in `cards`. */
  ghost function CountOf(cards: multiset<Card>, c: Card): nat { cards[c] }

  /** The shoe before shuffling is a shoe, and so is every rearrangement of it. */
  lemma FullShoeIsShoe(deck: seq<Card>)
    requires multiset(deck) == multiset(FullShoe())
    ensures IsShoe(multiset(deck)) && |deck| == 416
  {
    FullShoeContents();
    assert |multiset(deck)| == |multiset(FullShoe())|;
    forall c ensures CountOf(multiset(deck), c) == if IsStandard(c) then DeckCount else 0 {
    }
  }
}
