/** Deck construction: the loaded card definitions are validated and every definition is duplicated. */
module Deck {
  import opened Wrappers

  /** One card definition of the loaded card data: its name is the pair's identity key. */
  datatype Card = Card(name: string, image: string)

  /** The parsed card data. Only whether it is an array matters to the game. */
  datatype Loaded = JsonArray(items: seq<Card>) | JsonOther

  datatype DeckError = InvalidOrEmptyCardData

  /** The deck built from the loaded data: rejected unless it is a non-empty array,
      otherwise the definitions followed by the same definitions again. */
  function BuildDeck(data: Loaded): (r: Result<seq<Card>, DeckError>)
    ensures r.Failure? <==> data.JsonOther? || |data.items| == 0
    ensures r.Success? ==> |r.value| == 2 * |data.items|
    ensures r.Success? ==> forall i :: 0 <= i < |data.items| ==>
      r.value[i] == data.items[i] && r.value[|data.items| + i] == data.items[i]
    ensures r.Success? ==> multiset(r.value) == multiset(data.items) + multiset(data.items)
  {
    if data.JsonOther? || |data.items| == 0 then Failure(InvalidOrEmptyCardData)
    else Success(data.items + data.items)
  }

  /** How many cards of `deck` carry the name `name`. */
  function Occurrences(deck: seq<Card>, name: string): (n: nat)
    ensures n <= |deck|
  {
    if deck == [] then 0
    else (if deck[0].name == name then 1 else 0) + Occurrences(deck[1..], name)
  }

  /** No two definitions share a name. */
  predicate DistinctNames(items: seq<Card>)
  {
    forall i, j :: 0 <= i < j < |items| ==> items[i].name != items[j].name
  }

  lemma {:induction false} OccurrencesConcat(a: seq<Card>, b: seq<Card>, name: string)
    ensures Occurrences(a + b, name) == Occurrences(a, name) + Occurrences(b, name)
    decreases |a|
  {
    if a != [] {
      assert (a + b)[1..] == a[1..] + b;
      OccurrencesConcat(a[1..], b, name);
    } else {
      assert a + b == b;
    }
  }

  /** A name that no card carries occurs zero times; occurring at least once means some card carries it. */
  lemma {:induction false} OccurrencesPositive(deck: seq<Card>, name: string)
    ensures Occurrences(deck, name) > 0 <==> exists i :: 0 <= i < |deck| && deck[i].name == name
    decreases |deck|
  {
    if deck != [] {
      OccurrencesPositive(deck[1..], name);
      if exists i :: 0 <= i < |deck[1..]| && deck[1..][i].name == name {
        var i :| 0 <= i < |deck[1..]| && deck[1..][i].name == name;
        assert deck[i + 1].name == name;
      }
      if exists i :: 0 <= i < |deck| && deck[i].name == name {
        var i :| 0 <= i < |deck| && deck[i].name == name;
        if i > 0 { assert deck[1..][i - 1].name == name; }
      }
    }
  }

  /** With distinct names, each definition's name occurs exactly once among the definitions. */
  lemma {:induction false} DistinctOccursOnce(items: seq<Card>, k: nat)
    requires DistinctNames(items) && k < |items|
    ensures Occurrences(items, items[k].name) == 1
    decreases |items|
  {
    var rest := items[1..];
    assert DistinctNames(rest) by {
      forall i, j | 0 <= i < j < |rest| ensures rest[i].name != rest[j].name {
        assert rest[i] == items[i + 1] && rest[j] == items[j + 1];
      }
    }
    if k == 0 {
      forall i | 0 <= i < |rest| ensures rest[i].name != items[0].name {
        assert rest[i] == items[i + 1];
      }
      OccurrencesPositive(rest, items[0].name);
    } else {
      assert items[k] == rest[k - 1];
      assert items[0].name != items[k].name;
      DistinctOccursOnce(rest, k - 1);
    }
  }

  /** Whatever the names, the deck holds each name twice as often as the definitions do. */
  lemma DeckDoublesNames(items: seq<Card>, name: string)
    requires |items| > 0
    ensures BuildDeck(JsonArray(items)).Success?
    ensures Occurrences(BuildDeck(JsonArray(items)).value, name) == 2 * Occurrences(items, name)
  {
    assert BuildDeck(JsonArray(items)).value == items + items;
    OccurrencesConcat(items, items, name);
  }

  /** Every definition of a valid, distinct-named card list appears exactly twice in the deck,
      and a name that no definition carries does not appear at all. */
  lemma EachNameTwice(items: seq<Card>, name: string)
    requires |items| > 0 && DistinctNames(items)
    ensures BuildDeck(JsonArray(items)).Success?
    ensures var deck := BuildDeck(JsonArray(items)).value;
      Occurrences(deck, name) == if exists k :: 0 <= k < |items| && items[k].name == name then 2 else 0
  {
    DeckDoublesNames(items, name);
    OccurrencesPositive(items, name);
    if exists k :: 0 <= k < |items| && items[k].name == name {
      var k :| 0 <= k < |items| && items[k].name == name;
      DistinctOccursOnce(items, k);
    }
  }

  /** Taking the card at position k out of a deck removes one occurrence of its name. */
  lemma OccurrencesRemove(b: seq<Card>, k: nat, name: string)
    requires k < |b|
    ensures Occurrences(b, name) ==
      Occurrences(b[..k] + b[k + 1..], name) + (if b[k].name == name then 1 else 0)
  {
    assert b == b[..k] + ([b[k]] + b[k + 1..]);
    OccurrencesConcat(b[..k], [b[k]] + b[k + 1..], name);
    OccurrencesConcat(b[..k], b[k + 1..], name);
    assert ([b[k]] + b[k + 1..])[1..] == b[k + 1..];
  }

  lemma MultisetRemove(a: seq<Card>, b: seq<Card>, k: nat)
    requires multiset(a) == multiset(b) && |a| > 0 && k < |b| && b[k] == a[0]
    ensures multiset(a[1..]) == multiset(b[..k] + b[k + 1..])
  {
    assert a == [a[0]] + a[1..];
    assert b == b[..k] + [b[k]] + b[k + 1..];
    assert multiset(a[1..]) == multiset(a) - multiset([a[0]]);
    assert multiset(b[..k] + b[k + 1..]) == multiset(b) - multiset([b[k]]);
  }

  /** Two decks holding the same cards, in any order, hold the same number of cards of each name. */
  lemma {:induction false} OccurrencesOfPermutation(a: seq<Card>, b: seq<Card>, name: string)
    requires multiset(a) == multiset(b)
    ensures Occurrences(a, name) == Occurrences(b, name)
    decreases |a|
  {
    if a == [] {
      assert |b| == |multiset(b)| == 0;
    } else {
      assert a[0] in multiset(b);
      var k :| 0 <= k < |b| && b[k] == a[0];
      MultisetRemove(a, b, k);
      OccurrencesOfPermutation(a[1..], b[..k] + b[k + 1..], name);
      OccurrencesRemove(b, k, name);
    }
  }
}
