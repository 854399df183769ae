/** The turn state machine, the score and the restart of the memory game. A card on the board
    is identified by its position in the deck; the board shows the card `cards[i]` at position i. */
module Game {
  import opened Wrappers
  import opened Deck
  import opened Shuffle

  /** How many cards no longer accept clicks (their click listener was removed). */
  function Disabled(clickable: seq<bool>): (n: nat)
    ensures n <= |clickable|
  {
    if clickable == [] then 0
    else (if clickable[0] then 0 else 1) + Disabled(clickable[1..])
  }

  /** Disabling one clickable card adds exactly one disabled card. */
  lemma {:induction false} DisableOne(clickable: seq<bool>, i: nat)
    requires i < |clickable| && clickable[i]
    ensures Disabled(clickable[i := false]) == Disabled(clickable) + 1
    decreases |clickable|
  {
    if i == 0 {
      assert clickable[i := false][1..] == clickable[1..];
    } else {
      assert clickable[i := false][1..] == clickable[1..][i - 1 := false];
      DisableOne(clickable[1..], i - 1);
    }
  }

  /** A board on which every card is clickable has no disabled card. */
  lemma {:induction false} NoneDisabled(clickable: seq<bool>)
    requires forall k :: 0 <= k < |clickable| ==> clickable[k]
    ensures Disabled(clickable) == 0
    decreases |clickable|
  {
    if clickable != [] {
      NoneDisabled(clickable[1..]);
    }
  }

  /** A freshly generated board of n cards: all face down. */
  function FaceDown(n: nat): (r: seq<bool>)
    ensures |r| == n && forall k :: 0 <= k < n ==> !r[k]
  {
    seq(n, _ => false)
  }

  /** A freshly generated board of n cards: every click listener attached. */
  function AllClickable(n: nat): (r: seq<bool>)
    ensures |r| == n && Disabled(r) == 0
    ensures forall k :: 0 <= k < n ==> r[k]
  {
    var r := seq(n, _ => true);
    NoneDisabled(r);
    r
  }

  /** After a valid load the shuffled board holds every definition twice, and every name twice
      as often as the definitions do, whether or not names repeat. */
  lemma LoadedBoardDoublesNames(items: seq<Card>, rolls: RandomSource, name: string)
    requires |items| > 0 && UnitInterval(rolls)
    ensures BuildDeck(JsonArray(items)).Success?
    ensures var board := FisherYates(BuildDeck(JsonArray(items)).value, 2 * |items|, rolls, 0);
      multiset(board) == multiset(items) + multiset(items)
      && Occurrences(board, name) == 2 * Occurrences(items, name)
  {
    var deck := BuildDeck(JsonArray(items)).value;
    FisherYatesPermutes(deck, 2 * |items|, rolls, 0);
    OccurrencesOfPermutation(FisherYates(deck, 2 * |items|, rolls, 0), deck, name);
    DeckDoublesNames(items, name);
  }

  /** With distinct names, after a valid load the shuffled board holds every definition's name exactly twice,
      and no other name. */
  lemma LoadedBoardHasPairs(items: seq<Card>, rolls: RandomSource, name: string)
    requires |items| > 0 && DistinctNames(items) && UnitInterval(rolls)
    ensures BuildDeck(JsonArray(items)).Success?
    ensures var board := FisherYates(BuildDeck(JsonArray(items)).value, 2 * |items|, rolls, 0);
      Occurrences(board, name) == if exists k :: 0 <= k < |items| && items[k].name == name then 2 else 0
  {
    var deck := BuildDeck(JsonArray(items)).value;
    FisherYatesPermutes(deck, 2 * |items|, rolls, 0);
    OccurrencesOfPermutation(FisherYates(deck, 2 * |items|, rolls, 0), deck, name);
    EachNameTwice(items, name);
  }

  class MemoryGame {
    /** The deck, shuffled in place. */
    var cards: array<Card>
    /** Per position: the card shows its face ("flipped" class). */
    var flipped: seq<bool>
    /** Per position: the click listener is still attached. */
    var clickable: seq<bool>
    var firstCard: Option<nat>
    var secondCard: Option<nat>
    var lockBoard: bool
    var score: nat
    /** The evaluation timer (clickTimeout) is scheduled and has not fired yet. */
    var checkPending: bool
    /** The delayed unflip of a mismatched pair is scheduled and has not fired yet. */
    var unflipPending: bool

    /** The position k is the first or the second selected card. */
    predicate Selected(k: nat)
      reads this
    {
      firstCard == Some(k) || secondCard == Some(k)
    }

    ghost predicate Valid()
      reads this
    {
      |flipped| == cards.Length && |clickable| == cards.Length
      && (firstCard.Some? ==> firstCard.value < cards.Length && clickable[firstCard.value])
      && (secondCard.Some? ==> secondCard.value < cards.Length && clickable[secondCard.value])
      // a second card implies a distinct first card
      && (secondCard.Some? ==> firstCard.Some? && firstCard != secondCard)
      // the board is locked exactly while two cards are selected
      && (lockBoard <==> secondCard.Some?)
      // while two cards are selected exactly one callback is pending, and none otherwise
      && (secondCard.Some? <==> checkPending || unflipPending)
      && !(checkPending && unflipPending)
      // face-up cards are the disabled (matched) ones and the selected ones
      && (forall k :: 0 <= k < |flipped| ==> (flipped[k] <==> !clickable[k] || Selected(k)))
      // two cards are disabled per point scored
      && Disabled(clickable) == 2 * score
    }

    /** Page load: the globals start empty, then the fetched card data is validated, duplicated,
        shuffled and laid out on the board. Invalid data leaves the board empty. */
    constructor Load(data: Loaded, rolls: RandomSource)
      requires UnitInterval(rolls)
      ensures Valid() && fresh(cards)
      ensures BuildDeck(data).Failure? ==> cards.Length == 0
      ensures BuildDeck(data).Success? ==>
        cards[..] == FisherYates(BuildDeck(data).value, 2 * |data.items|, rolls, 0)
      ensures score == 0 && firstCard.None? && secondCard.None? && !lockBoard
      ensures !checkPending && !unflipPending
      ensures flipped == FaceDown(cards.Length) && clickable == AllClickable(cards.Length)
    {
      var built := BuildDeck(data);
      // invalid data leaves `cards` empty (the error is only logged)
      var deck := if built.Success? then built.value else [];
      var a := new Card[|deck|](i requires 0 <= i < |deck| => deck[i]);
      assert a[..] == deck;
      ShuffleCards(a, rolls);
      cards := a;
      flipped := FaceDown(a.Length);
      clickable := AllClickable(a.Length);
      firstCard, secondCard := None, None;
      lockBoard := false;
      score := 0;
      checkPending, unflipPending := false, false;
    }

    /** A click on the card at position i reaches FlipCard only while its listener is attached. */
    method Click(i: nat)
      requires Valid() && i < cards.Length
      modifies this
      ensures Valid()
      ensures !old(clickable[i]) || old(lockBoard) || old(firstCard) == Some(i) ==> unchanged(this)
      ensures old(clickable[i]) && !old(lockBoard) && old(firstCard) != Some(i) ==>
        cards == old(cards) && clickable == old(clickable) && score == old(score)
        && flipped == old(flipped)[i := true] && !unflipPending
        && if old(firstCard).None? then
             firstCard == Some(i) && secondCard.None? && !lockBoard && !checkPending
           else
             firstCard == old(firstCard) && secondCard == Some(i) && lockBoard && checkPending
    {
      if clickable[i] {
        FlipCard(i);
      }
    }

    /** The click handler: ignored while the board is locked or on the first card itself;
        otherwise the card turns face up and becomes the first card, or the second card, which
        locks the board and schedules the evaluation. */
    method FlipCard(i: nat)
      requires Valid() && i < cards.Length && clickable[i]
      modifies this
      ensures Valid()
      ensures old(lockBoard) || old(firstCard) == Some(i) ==> unchanged(this)
      ensures !old(lockBoard) && old(firstCard) != Some(i) ==>
        cards == old(cards) && clickable == old(clickable) && score == old(score)
        && flipped == old(flipped)[i := true] && !unflipPending
        && if old(firstCard).None? then
             firstCard == Some(i) && secondCard.None? && !lockBoard && !checkPending
           else
             firstCard == old(firstCard) && secondCard == Some(i) && lockBoard && checkPending
    {
      if lockBoard || firstCard == Some(i) {
        return;
      }
      // clearTimeout(clickTimeout): with the board unlocked no evaluation is pending
      assert !checkPending;
      flipped := flipped[i := true];
      if firstCard.None? {
        firstCard := Some(i);
        return;
      }
      secondCard := Some(i);
      lockBoard := true;
      checkPending := true;
    }

    /** The evaluation timer fires: a pair with equal names is disabled and scores a point;
        otherwise the unflip is scheduled and the board stays locked. */
    method CheckForMatch()
      requires Valid() && checkPending
      modifies this
      ensures Valid() && cards == old(cards) && !checkPending
      ensures var f, s := old(firstCard).value, old(secondCard).value;
        if cards[f].name == cards[s].name then
          clickable == old(clickable)[f := false][s := false] && flipped == old(flipped)
          && score == old(score) + 1
          && firstCard.None? && secondCard.None? && !lockBoard && !unflipPending
        else
          clickable == old(clickable) && flipped == old(flipped) && score == old(score)
          && firstCard == old(firstCard) && secondCard == old(secondCard) && lockBoard
          && unflipPending
    {
      checkPending := false;
      var isMatch := cards[firstCard.value].name == cards[secondCard.value].name;
      if isMatch {
        ghost var c := clickable;
        ghost var f, s := firstCard.value, secondCard.value;
        DisableOne(c, f);
        DisableOne(c[f := false], s);
        DisableCards();
        IncreaseScore();
      } else {
        UnflipCards();
      }
    }

    /** Removes the click listeners of both selected cards and ends the turn. */
    method DisableCards()
      requires firstCard.Some? && secondCard.Some?
      requires firstCard.value < |clickable| && secondCard.value < |clickable|
      modifies this
      ensures clickable == old(clickable)[old(firstCard).value := false][old(secondCard).value := false]
      ensures firstCard.None? && secondCard.None? && !lockBoard
      ensures cards == old(cards) && flipped == old(flipped) && score == old(score)
      ensures checkPending == old(checkPending) && unflipPending == old(unflipPending)
    {
      clickable := clickable[firstCard.value := false];
      clickable := clickable[secondCard.value := false];
      ResetBoard();
    }

    /** Schedules the delayed unflip of the selected pair. */
    method UnflipCards()
      modifies this
      ensures unflipPending
      ensures cards == old(cards) && flipped == old(flipped) && clickable == old(clickable)
      ensures score == old(score) && firstCard == old(firstCard) && secondCard == old(secondCard)
      ensures lockBoard == old(lockBoard) && checkPending == old(checkPending)
    {
      unflipPending := true;
    }

    /** The delayed unflip fires: both selected cards turn face down and the turn ends. */
    method UnflipTimeout()
      requires Valid() && unflipPending
      modifies this
      ensures Valid()
      ensures flipped == old(flipped)[old(firstCard).value := false][old(secondCard).value := false]
      ensures cards == old(cards) && clickable == old(clickable) && score == old(score)
      ensures firstCard.None? && secondCard.None? && !lockBoard
      ensures !checkPending && !unflipPending
    {
      unflipPending := false;
      flipped := flipped[firstCard.value := false];
      flipped := flipped[secondCard.value := false];
      ResetBoard();
    }

    /** Ends the turn: no card selected, board unlocked. */
    method ResetBoard()
      modifies this
      ensures firstCard.None? && secondCard.None? && !lockBoard
      ensures cards == old(cards) && flipped == old(flipped) && clickable == old(clickable)
      ensures score == old(score) && checkPending == old(checkPending)
      ensures unflipPending == old(unflipPending)
    {
      firstCard := None;
      secondCard := None;
      lockBoard := false;
    }

    method IncreaseScore()
      modifies this
      ensures score == old(score) + 1
      ensures cards == old(cards) && flipped == old(flipped) && clickable == old(clickable)
      ensures firstCard == old(firstCard) && secondCard == old(secondCard)
      ensures lockBoard == old(lockBoard) && checkPending == old(checkPending)
      ensures unflipPending == old(unflipPending)
    {
      score := score + 1;
    }

    /** Restart: ends the turn, reshuffles the same deck in place, zeroes the score and lays
        the board out again face down and clickable. */
    method Restart(rolls: RandomSource)
      requires Valid() && UnitInterval(rolls)
      requires !checkPending && !unflipPending
      modifies this, cards
      ensures Valid() && cards == old(cards)
      ensures cards[..] == FisherYates(old(cards[..]), cards.Length, rolls, 0)
      ensures multiset(cards[..]) == multiset(old(cards[..]))
      ensures score == 0 && firstCard.None? && secondCard.None? && !lockBoard
      ensures !checkPending && !unflipPending
      ensures flipped == FaceDown(cards.Length) && clickable == AllClickable(cards.Length)
    {
      ResetBoard();
      ShuffleCards(cards, rolls);
      score := 0;
      flipped := FaceDown(cards.Length);
      clickable := AllClickable(cards.Length);
    }
  }

  /** Two definitions, "cat" and "dog", loaded with a generator that always draws 0:
      the board is dog, cat, dog, cat. */
  method LoadCatDog() returns (game: MemoryGame)
    ensures fresh(game) && fresh(game.cards) && game.Valid()
    ensures game.cards[..] == [Card("dog", "dog.png"), Card("cat", "cat.png"), Card("dog", "dog.png"), Card("cat", "cat.png")]
    ensures game.score == 0 && game.firstCard.None? && game.secondCard.None? && !game.lockBoard
    ensures !game.checkPending && !game.unflipPending
    ensures game.flipped == FaceDown(4) && game.clickable == AllClickable(4)
  {
    var cat, dog := Card("cat", "cat.png"), Card("dog", "dog.png");
    var rolls: RandomSource := (k: nat) => 0.0;
    var data := JsonArray([cat, dog]);
    assert BuildDeck(data).value == [cat, dog, cat, dog];
    assert Pick(0.0, 4) == 0 && Pick(0.0, 3) == 0 && Pick(0.0, 2) == 0 && Pick(0.0, 1) == 0;
    assert FisherYates([cat, dog, cat, dog], 4, rolls, 0) == [dog, cat, dog, cat] by {
      assert Swap([cat, dog, cat, dog], 3, 0) == [dog, dog, cat, cat];
      assert Swap([dog, dog, cat, cat], 2, 0) == [cat, dog, dog, cat];
      assert Swap([cat, dog, dog, cat], 1, 0) == [dog, cat, dog, cat];
      assert Swap([dog, cat, dog, cat], 0, 0) == [dog, cat, dog, cat];
    }
    game := new MemoryGame.Load(data, rolls);
  }

  /** On the cat-and-dog board a dog and a cat do not match: the board stays locked until
      both turn face down again, and the score stays 0. */
  method MismatchScenario()
  {
    var game := LoadCatDog();
    assert game.cards[0].name != game.cards[1].name;
    game.Click(0);
    game.Click(1);
    game.CheckForMatch();
    assert game.lockBoard && game.unflipPending && game.score == 0;
    game.Click(2);  // the board is locked: ignored
    game.UnflipTimeout();
    assert !game.flipped[0] && !game.flipped[1] && !game.flipped[2] && game.score == 0;
  }

  /** On the cat-and-dog board matching the two cats and then the two dogs scores two points. */
  method MatchScenario()
  {
    var game := LoadCatDog();
    assert game.cards[1].name == game.cards[3].name;
    assert game.cards[0].name == game.cards[2].name;
    game.Click(1);
    game.Click(1);  // the first card again: ignored
    assert game.firstCard == Some(1) && !game.lockBoard;
    game.Click(3);
    assert game.lockBoard;
    game.Click(0);  // the board is locked: ignored
    game.CheckForMatch();
    assert game.score == 1 && !game.clickable[1] && !game.clickable[3];
    assert game.flipped[1] && game.flipped[3];

    game.Click(0);
    game.Click(1);  // a matched card: its listener is gone
    game.Click(2);
    game.CheckForMatch();
    assert game.score == 2;
  }
}
