/** Building a player's starting deck: expanding the deck builder's (card, quantity)
    entries into a flat list, shuffling it with Fisher-Yates and splitting off the
    opening hand. */
module Deck {
  import opened Types

  // ---- expansion of (cardId, quantity) entries ----

  /** `n` copies of `c`; a quantity that is not positive gives none, because the
      counting loop then runs zero times. */
  function Copies(c: CardId, n: int): (s: seq<CardId>)
    ensures |s| == if n > 0 then n else 0
    ensures forall k :: 0 <= k < |s| ==> s[k] == c
    decreases n
  {
    if n <= 0 then [] else Copies(c, n - 1) + [c]
  }

  /** The flat list the nested loops push, entry after entry. */
  function Expanded(entries: seq<DeckEntry>): seq<CardId> {
    if entries == [] then []
    else
      var last := entries[|entries| - 1];
      Expanded(entries[..|entries| - 1]) + Copies(last.cardId, last.quantity)
  }

  /** How many copies of `c` the entries ask for in total. */
  function QuantityOf(entries: seq<DeckEntry>, c: CardId): nat {
    if entries == [] then 0
    else
      var last := entries[|entries| - 1];
      QuantityOf(entries[..|entries| - 1], c)
        + (if last.cardId == c && last.quantity > 0 then last.quantity else 0)
  }

  /** How many cards the entries ask for in total. */
  function TotalQuantity(entries: seq<DeckEntry>): nat {
    if entries == [] then 0
    else
      var last := entries[|entries| - 1];
      TotalQuantity(entries[..|entries| - 1]) + (if last.quantity > 0 then last.quantity else 0)
  }

  lemma {:induction false} CopiesCount(c: CardId, n: int, d: CardId)
    ensures multiset(Copies(c, n))[d] == if d == c && n > 0 then n else 0
    decreases n
  {
    if n > 0 {
      CopiesCount(c, n - 1, d);
    }
  }

  /** Every card id occurs in the expanded list exactly as often as its entries ask. */
  lemma {:induction false} ExpandedCount(entries: seq<DeckEntry>, c: CardId)
    ensures multiset(Expanded(entries))[c] == QuantityOf(entries, c)
    decreases |entries|
  {
    if entries != [] {
      var last := entries[|entries| - 1];
      ExpandedCount(entries[..|entries| - 1], c);
      CopiesCount(last.cardId, last.quantity, c);
    }
  }

  /** The expanded list is as long as the sum of the positive quantities. */
  lemma {:induction false} ExpandedLength(entries: seq<DeckEntry>)
    ensures |Expanded(entries)| == TotalQuantity(entries)
    decreases |entries|
  {
    if entries != [] {
      ExpandedLength(entries[..|entries| - 1]);
    }
  }

  /** The nested loops of the match factory: for each entry, push its card id
      `quantity` times. */
  method ExpandDeck(entries: seq<DeckEntry>) returns (cards: seq<CardId>)
    ensures cards == Expanded(entries)
  {
    cards := [];
    for e := 0 to |entries|
      invariant cards == Expanded(entries[..e])
    {
      var entry := entries[e];
      var i := 0;
      while i < entry.quantity
        invariant 0 <= i
        invariant entry.quantity > 0 ==> i <= entry.quantity
        invariant entry.quantity <= 0 ==> i == 0
        invariant cards == Expanded(entries[..e]) + Copies(entry.cardId, i)
      {
        cards := cards + [entry.cardId];
        i := i + 1;
      }
      assert entries[..e + 1][..e] == entries[..e];
      assert Copies(entry.cardId, i) == Copies(entry.cardId, entry.quantity);
    }
    assert entries[..|entries|] == entries;
  }

  // ---- Fisher-Yates shuffle ----

  function Swap<T>(s: seq<T>, i: nat, j: nat): (t: seq<T>)
    requires i < |s| && j < |s|
    ensures |t| == |s|
  {
    s[i := s[j]][j := s[i]]
  }

  lemma SwapPermutes<T>(s: seq<T>, i: nat, j: nat)
    requires i < |s| && j < |s|
    ensures multiset(Swap(s, i, j)) == multiset(s)
  {
    assert multiset(s[i := s[j]]) == multiset(s) - multiset{s[i]} + multiset{s[j]};
  }

  /** The list once the descending loop has handled positions i, i-1, ..., 1: position
      k is swapped with position `roll(k) % (k + 1)`, the stand-in for
      `Math.floor(Math.random() * (k + 1))`. */
  function ShuffleDown<T>(s: seq<T>, i: int, roll: nat -> nat): (t: seq<T>)
    requires i < |s|
    ensures |t| == |s|
    decreases i
  {
    if i <= 0 then s else ShuffleDown(Swap(s, i, roll(i) % (i + 1)), i - 1, roll)
  }

  /** The permutation of `s` that the random draws `roll` select. */
  function Shuffled<T>(s: seq<T>, roll: nat -> nat): seq<T> {
    ShuffleDown(s, |s| - 1, roll)
  }

  /** Whatever the random draws, the shuffle only rearranges the list. */
  lemma {:induction false} ShuffleDownPermutes<T>(s: seq<T>, i: int, roll: nat -> nat)
    requires i < |s|
    ensures multiset(ShuffleDown(s, i, roll)) == multiset(s)
    decreases i
  {
    if i > 0 {
      var j := roll(i) % (i + 1);
      SwapPermutes(s, i, j);
      ShuffleDownPermutes(Swap(s, i, j), i - 1, roll);
    }
  }

  /** Copies the list into an array and swaps in place from the last position down. */
  method Shuffle<T>(items: seq<T>, roll: nat -> nat) returns (r: seq<T>)
    ensures r == Shuffled(items, roll)
    ensures |r| == |items| && multiset(r) == multiset(items)
  {
    var copy := new T[|items|](k requires 0 <= k < |items| => items[k]);
    var i := copy.Length - 1;
    assert copy[..] == items;
    while i > 0
      invariant i < copy.Length
      invariant ShuffleDown(copy[..], i, roll) == Shuffled(items, roll)
    {
      var j := roll(i) % (i + 1);
      ghost var before := copy[..];
      var t := copy[i];
      copy[i] := copy[j];
      copy[j] := t;
      assert copy[..] == Swap(before, i, j);
      i := i - 1;
    }
    r := copy[..];
    ShuffleDownPermutes(items, |items| - 1, roll);
  }

  // ---- opening hand ----

  datatype Split = Split(drawn: seq<CardId>, remaining: seq<CardId>)

  /** Shuffles the list and splits off its first `count` cards; refuses a list with
      fewer than `count` cards. */
  method DrawCards(deckCardIds: seq<CardId>, count: nat, roll: nat -> nat) returns (r: Result<Split>)
    ensures r.Err? <==> |deckCardIds| < count
    ensures r.Err? ==> r.reason == "Not enough cards in deck to draw " + NatToString(count)
    ensures r.Ok? ==>
      && |r.value.drawn| == count
      && r.value.drawn + r.value.remaining == Shuffled(deckCardIds, roll)
      && multiset(r.value.drawn) + multiset(r.value.remaining) == multiset(deckCardIds)
  {
    if |deckCardIds| < count {
      return Err("Not enough cards in deck to draw " + NatToString(count));
    }
    var shuffled := Shuffle(deckCardIds, roll);
    assert shuffled == shuffled[..count] + shuffled[count..];
    r := Ok(Split(shuffled[..count], shuffled[count..]));
  }

  /** The opening deal of the match factory keeps every card the deck entries ask for:
      the five-card hand and the rest of the shuffled list together hold each card id
      exactly `QuantityOf` times, and the rest holds all but five cards. */
  lemma OpeningDealKeepsEveryCard(entries: seq<DeckEntry>, roll: nat -> nat, c: CardId)
    requires |Expanded(entries)| >= 5
    ensures var s := Shuffled(Expanded(entries), roll);
      && |s[..5]| == 5
      && |s[5..]| == TotalQuantity(entries) - 5
      && multiset(s[..5])[c] + multiset(s[5..])[c] == QuantityOf(entries, c)
  {
    var s := Shuffled(Expanded(entries), roll);
    ShuffleDownPermutes(Expanded(entries), |Expanded(entries)| - 1, roll);
    ExpandedCount(entries, c);
    ExpandedLength(entries);
    assert s == s[..5] + s[5..];
  }
}
