/** The memory-match puzzle: a deck of sixteen cards holding eight
    symbols twice each, turned over two at a time; equal pairs stay
    matched, others are turned back after a delay. */
module MemoryMatch {
  import opened Common

  /** `emojis.length`: the number of distinct symbols. */
  const SymbolCount := 8

  /** `[...emojis, ...emojis]`, by symbol index. */
  const Pairs: seq<nat> := Iota(SymbolCount) + Iota(SymbolCount)

  datatype Card = Card(id: nat, symbol: nat, flipped: bool, matched: bool)

  /** The puzzle state: the cards, the ids turned over in this move
      (`flippedCards`), the move count and the matched-pair count. */
  datatype Game = Game(cards: seq<Card>, pending: seq<nat>, moves: nat, matches: nat)

  /** What a click schedules: nothing, turning the two cards back, or
      reporting the win (`onComplete(100)`). */
  datatype Later = Nothing | TurnBack(first: nat, second: nat) | Win

  /** The shuffled order is some permutation of the pairs; which one is
      up to `Math.random`. */
  predicate IsShuffle(order: seq<nat>) {
    multiset(order) == multiset(Pairs)
  }

  function SymbolsOf(cards: seq<Card>): (s: seq<nat>)
    ensures |s| == |cards| && forall i :: 0 <= i < |cards| ==> s[i] == cards[i].symbol
  {
    seq(|cards|, i requires 0 <= i < |cards| => cards[i].symbol)
  }

  /** The mount effect: one face-down card per shuffled symbol, its id
      being its position. */
  function Deal(order: seq<nat>): (g: Game)
    requires IsShuffle(order)
    ensures |g.cards| == 16 && SymbolsOf(g.cards) == order
    ensures forall i :: 0 <= i < |order| ==> g.cards[i] == Card(i, order[i], false, false)
    ensures g.pending == [] && g.moves == 0 && g.matches == 0
  {
    ShuffleLength(order);
    Game(FaceDown(order), [], 0, 0)
  }

  function FaceDown(order: seq<nat>): (cards: seq<Card>)
    ensures |cards| == |order|
    ensures forall i :: 0 <= i < |order| ==> cards[i] == Card(i, order[i], false, false)
  {
    seq(|order|, i requires 0 <= i < |order| => Card(i, order[i], false, false))
  }

  /** Every shuffle has sixteen entries, each symbol twice, and nothing
      else. */
  lemma ShuffleFacts(order: seq<nat>)
    requires IsShuffle(order)
    ensures |order| == 16
    ensures forall i :: 0 <= i < |order| ==> order[i] < SymbolCount
  {
    ShuffleLength(order);
    forall i | 0 <= i < |order|
      ensures order[i] < SymbolCount
    {
      ShuffleCount(order, order[i]);
      CountPositive(order, i);
    }
  }

  lemma ShuffleLength(order: seq<nat>)
    requires IsShuffle(order)
    ensures |order| == 16
  {
    assert |order| == |multiset(order)| == |multiset(Pairs)| == |Pairs|;
  }

  /** A dealt deck holds each of the eight symbols exactly twice. */
  lemma ShuffleCount(order: seq<nat>, s: nat)
    requires IsShuffle(order)
    ensures Count(order, s) == (if s < SymbolCount then 2 else 0)
  {
    CountMultiset(order, s);
    PairsMultiset(s);
  }

  lemma {:induction false} CountPositive(s: seq<nat>, i: nat)
    requires i < |s|
    ensures Count(s, s[i]) > 0
  {
    if i > 0 {
      CountPositive(s[1..], i - 1);
    }
  }

  /** The pairs hold each symbol twice and nothing else. */
  lemma PairsMultiset(s: nat)
    ensures multiset(Pairs)[s] == (if s < SymbolCount then 2 else 0)
  {
    IotaMultiset(SymbolCount, s);
  }

  /** `[0, 1, ..., n - 1]`. */
  function Iota(n: nat): (s: seq<nat>)
    ensures |s| == n
  {
    if n == 0 then [] else Iota(n - 1) + [n - 1]
  }

  lemma {:induction false} IotaMultiset(n: nat, s: nat)
    ensures multiset(Iota(n))[s] == (if s < n then 1 else 0)
  {
    if n > 0 {
      IotaMultiset(n - 1, s);
    }
  }

  /** The click guard: two cards already up, or this card already turned
      or matched. */
  predicate Ignored(g: Game, id: nat)
    requires id < |g.cards|
  {
    |g.pending| == 2 || g.cards[id].flipped || g.cards[id].matched
  }

  /** `handleCardClick(id)`. Ignored while two cards are up, or on a card
      already turned or matched. Otherwise the card turns; on the second
      card of a move the move counter rises and the pair is either marked
      matched (possibly winning) or scheduled to turn back. */
  function Click(g: Game, id: nat): (r: (Game, Later))
    requires id < |g.cards|
    requires forall k :: 0 <= k < |g.pending| ==> g.pending[k] < |g.cards|
    ensures Ignored(g, id) ==> r == (g, Nothing)
    ensures |r.0.cards| == |g.cards| && SymbolsOf(r.0.cards) == SymbolsOf(g.cards)
    ensures r.0.moves == g.moves + (if r.0 != g && |g.pending| == 1 then 1 else 0)
    ensures r.1 == Win <==> r.0 != g && |g.pending| == 1
                            && g.cards[g.pending[0]].symbol == g.cards[id].symbol
                            && g.matches + 1 == SymbolCount
    // the clicked card turns face up; no card but it and the pending one changes
    ensures !Ignored(g, id) ==>
              r.0.cards[id].flipped
              && forall i :: 0 <= i < |g.cards| && i != id && (g.pending == [] || i != g.pending[0])
                             ==> r.0.cards[i] == g.cards[i]
    // the first card of a move becomes the one pending card
    ensures !Ignored(g, id) && g.pending == [] ==>
              r.0.pending == [id] && r.1 == Nothing && !r.0.cards[id].matched
              && r.0.matches == g.matches
    // an equal second card: both matched, nothing pending, one more match
    ensures !Ignored(g, id) && |g.pending| == 1
            && g.cards[g.pending[0]].symbol == g.cards[id].symbol ==>
              r.0.cards[g.pending[0]].matched && r.0.cards[id].matched
              && (g.pending[0] != id ==> r.0.cards[g.pending[0]] == g.cards[g.pending[0]].(matched := true))
              && r.0.pending == [] && r.0.matches == g.matches + 1
    // a different second card: both stay up, unmatched, until turned back
    ensures !Ignored(g, id) && |g.pending| == 1
            && g.cards[g.pending[0]].symbol != g.cards[id].symbol ==>
              !r.0.cards[id].matched && r.0.cards[g.pending[0]] == g.cards[g.pending[0]]
              && r.0.pending == [g.pending[0], id] && r.0.matches == g.matches
              && r.1 == TurnBack(g.pending[0], id)
  {
    if Ignored(g, id) then (g, Nothing)
    else
      var cards := g.cards[id := g.cards[id].(flipped := true)];
      var pending := g.pending + [id];
      if |pending| != 2 then
        assert cards[id] != g.cards[id];
        (g.(cards := cards, pending := pending), Nothing)
      else
        var first := pending[0];
        var second := pending[1];
        if cards[first].symbol == cards[second].symbol then
          var done := cards[first := cards[first].(matched := true)][second := cards[second].(matched := true)];
          (Game(done, [], g.moves + 1, g.matches + 1),
           if g.matches + 1 == SymbolCount then Win else Nothing)
        else
          (Game(cards, pending, g.moves + 1, g.matches), TurnBack(first, second))
  }

  /** The delayed callback after a failed pair: both cards face down and
      a new move may start. */
  function TurnBackCards(g: Game, first: nat, second: nat): (r: Game)
    requires first < |g.cards| && second < |g.cards|
    ensures r.pending == [] && r.moves == g.moves && r.matches == g.matches
    ensures |r.cards| == |g.cards|
    ensures !r.cards[first].flipped && !r.cards[second].flipped
    ensures forall i :: 0 <= i < |g.cards| && i != first && i != second ==> r.cards[i] == g.cards[i]
    ensures SymbolsOf(r.cards) == SymbolsOf(g.cards)
  {
    var cards := g.cards[first := g.cards[first].(flipped := false)];
    var cards := cards[second := cards[second].(flipped := false)];
    g.(cards := cards, pending := [])
  }

  // ---------------------------------------------------------------------
  // The invariant

  function B(b: bool): nat {
    if b then 1 else 0
  }

  /** The number of matched cards. */
  function MatchedCount(cards: seq<Card>): (n: nat)
    ensures n <= |cards|
  {
    if cards == [] then 0 else B(cards[0].matched) + MatchedCount(cards[1..])
  }

  lemma {:induction false} MatchedUpdate(cards: seq<Card>, i: nat, c: Card)
    requires i < |cards|
    ensures MatchedCount(cards[i := c]) == MatchedCount(cards) - B(cards[i].matched) + B(c.matched)
  {
    if i > 0 {
      MatchedUpdate(cards[1..], i - 1, c);
      assert cards[i := c][1..] == cards[1..][i - 1 := c];
    }
  }

  lemma {:induction false} AllMatched(cards: seq<Card>)
    requires MatchedCount(cards) == |cards|
    ensures forall i :: 0 <= i < |cards| ==> cards[i].matched
  {
    if cards != [] {
      AllMatched(cards[1..]);
      assert forall i :: 1 <= i < |cards| ==> cards[i] == cards[1..][i - 1];
    }
  }

  /** What every reachable state satisfies: the deck is unchanged; the
      pending ids are at most two distinct face-up unmatched cards (two
      only while a failed pair waits to turn back); matched cards are
      face up and every other face-up card is pending; two matched cards
      per match, and at least one move per match. */
  predicate Valid(g: Game, deck: seq<nat>) {
    && |g.cards| == |deck|
    && (forall i :: 0 <= i < |deck| ==> g.cards[i].symbol == deck[i] && g.cards[i].id == i)
    && |g.pending| <= 2
    && (forall k :: 0 <= k < |g.pending| ==>
          g.pending[k] < |g.cards| && g.cards[g.pending[k]].flipped && !g.cards[g.pending[k]].matched)
    && (|g.pending| == 2 ==> g.pending[0] != g.pending[1]
                             && deck[g.pending[0]] != deck[g.pending[1]])
    && (forall i :: 0 <= i < |g.cards| && g.cards[i].matched ==> g.cards[i].flipped)
    && (forall i :: 0 <= i < |g.cards| && g.cards[i].flipped && !g.cards[i].matched ==> i in g.pending)
    && MatchedCount(g.cards) == 2 * g.matches
    && g.matches <= g.moves
  }

  lemma DealValid(order: seq<nat>)
    requires IsShuffle(order)
    ensures Valid(Deal(order), order)
  {
    var g := Deal(order);
    NoneMatched(g.cards);
  }

  lemma {:induction false} NoneMatched(cards: seq<Card>)
    requires forall i :: 0 <= i < |cards| ==> !cards[i].matched
    ensures MatchedCount(cards) == 0
  {
    if cards != [] {
      NoneMatched(cards[1..]);
    }
  }

  lemma ClickKeepsValid(g: Game, deck: seq<nat>, id: nat)
    requires Valid(g, deck) && id < |g.cards|
    ensures Valid(Click(g, id).0, deck)
  {
    if |g.pending| == 2 || g.cards[id].flipped || g.cards[id].matched {
    } else if |g.pending| == 0 {
      FirstCardValid(g, deck, id);
    } else {
      var first := g.pending[0];
      if deck[first] == deck[id] {
        PairMatchedValid(g, deck, id);
      } else {
        PairFailedValid(g, deck, id);
      }
    }
  }

  lemma FirstCardValid(g: Game, deck: seq<nat>, id: nat)
    requires Valid(g, deck) && id < |g.cards| && g.pending == []
    requires !g.cards[id].flipped && !g.cards[id].matched
    ensures Valid(Click(g, id).0, deck)
  {
    var cards := g.cards[id := g.cards[id].(flipped := true)];
    MatchedUpdate(g.cards, id, g.cards[id].(flipped := true));
    assert Click(g, id).0 == g.(cards := cards, pending := [id]);
  }

  lemma PairMatchedValid(g: Game, deck: seq<nat>, id: nat)
    requires Valid(g, deck) && id < |g.cards| && |g.pending| == 1
    requires !g.cards[id].flipped && !g.cards[id].matched
    requires deck[g.pending[0]] == deck[id]
    ensures Valid(Click(g, id).0, deck)
  {
    var first := g.pending[0];
    var cards := g.cards[id := g.cards[id].(flipped := true)];
    MatchedUpdate(g.cards, id, g.cards[id].(flipped := true));
    var once := cards[first := cards[first].(matched := true)];
    MatchedUpdate(cards, first, cards[first].(matched := true));
    var done := once[id := once[id].(matched := true)];
    MatchedUpdate(once, id, once[id].(matched := true));
    assert Click(g, id).0 == Game(done, [], g.moves + 1, g.matches + 1);
  }

  lemma PairFailedValid(g: Game, deck: seq<nat>, id: nat)
    requires Valid(g, deck) && id < |g.cards| && |g.pending| == 1
    requires !g.cards[id].flipped && !g.cards[id].matched
    requires deck[g.pending[0]] != deck[id]
    ensures Valid(Click(g, id).0, deck)
  {
    var first := g.pending[0];
    var cards := g.cards[id := g.cards[id].(flipped := true)];
    MatchedUpdate(g.cards, id, g.cards[id].(flipped := true));
    assert Click(g, id).0 == Game(cards, [first, id], g.moves + 1, g.matches);
  }

  /** The turn-back callback only ever arrives for the failed pair, and
      leaves a valid state with nothing pending. */
  lemma TurnBackKeepsValid(g: Game, deck: seq<nat>)
    requires Valid(g, deck) && |g.pending| == 2
    ensures Valid(TurnBackCards(g, g.pending[0], g.pending[1]), deck)
  {
    var first := g.pending[0];
    var second := g.pending[1];
    var c1 := g.cards[first := g.cards[first].(flipped := false)];
    MatchedUpdate(g.cards, first, g.cards[first].(flipped := false));
    MatchedUpdate(c1, second, c1[second].(flipped := false));
  }

  /** A click on the second card of a failed pair schedules turning
      exactly those two back. */
  lemma FailedPairTurnsBack(g: Game, deck: seq<nat>, id: nat)
    requires Valid(g, deck) && id < |g.cards| && |g.pending| == 1
    requires !g.cards[id].flipped && !g.cards[id].matched
    requires deck[g.pending[0]] != deck[id]
    ensures Click(g, id).1 == TurnBack(g.pending[0], id)
    ensures Click(g, id).0.pending == [g.pending[0], id]
  {
  }

  /** Once all eight pairs are found every card is matched and nothing
      is pending. */
  lemma WonMeansAllMatched(g: Game, deck: seq<nat>)
    requires Valid(g, deck) && |deck| == 16 && g.matches == SymbolCount
    ensures forall i :: 0 <= i < |g.cards| ==> g.cards[i].matched
    ensures g.pending == []
  {
    AllMatched(g.cards);
    if g.pending != [] {
      FirstPendingUnmatched(g, deck);
      assert false;
    }
  }

  lemma FirstPendingUnmatched(g: Game, deck: seq<nat>)
    requires Valid(g, deck) && g.pending != []
    ensures g.pending[0] < |g.cards| && !g.cards[g.pending[0]].matched
  {
  }
}
