/**
 * Models/Memory.swift: the memory game's constants, cards and states, and
 * `generateCards`, which lays twelve pairs out on a 5x5 board around an
 * empty centre. The shuffle takes its random draws as a parameter, and
 * the UUIDs the cards receive as they are placed are the parameter `ids`.
 * Durations are in tenths of a second.
 */
module MemoryModel {
  /** `gameDuration`: 90 s. */
  const GameDuration := 900
  const PairsCount := 12
  const CountdownDuration := 1
  const BoardSize := 5
  /** `totalCards`: every cell but the centre. */
  const TotalCards := BoardSize * BoardSize - 1
  const Centre := BoardSize / 2

  datatype CardState = FaceDown | FaceUp | Matched

  datatype Position = Position(row: int, column: int)

  /** `MemoryCard`, with its UUID as `id`. */
  datatype MemoryCard = MemoryCard(id: nat, imageIdentifier: int, state: CardState, position: Position)

  /** The `==` of `MemoryCard`: two cards are the same card when their ids agree. */
  predicate SameCard(a: MemoryCard, b: MemoryCard)
  {
    a.id == b.id
  }

  /** Turning a card over leaves it the same card. */
  lemma SameCardIgnoresState(a: MemoryCard, s: CardState)
    ensures SameCard(a, a.(state := s)) && SameCard(a.(state := s), a)
    ensures a.(state := s) != a <==> s != a.state
  {
  }

  /** `MemoryGameState`. */
  datatype GameState = Initial | Countdown(n: int) | Playing | Paused | Finished(success: bool)

  /** The identifiers of the pairs as the first loop of `generateCards` appends them: 1, 1, 2, 2, ... */
  function PairList(n: nat): (s: seq<int>)
    ensures |s| == 2 * n
  {
    seq(2 * n, k requires 0 <= k < 2 * n => k / 2 + 1)
  }

  /** The list for `n` pairs extends the list for `n - 1` with two copies of `n`. */
  lemma PairListStep(n: nat)
    requires n > 0
    ensures PairList(n) == PairList(n - 1) + [n, n]
  {
    var s, t := PairList(n), PairList(n - 1) + [n, n];
    forall k | 0 <= k < 2 * n
      ensures s[k] == t[k]
    {
      if k < 2 * n - 2 {
        assert t[k] == PairList(n - 1)[k];
      }
    }
  }

  /** Each identifier from 1 to `n` is listed exactly twice, and nothing else is listed. */
  lemma {:induction false} PairListCount(n: nat, i: int)
    ensures multiset(PairList(n))[i] == if 1 <= i <= n then 2 else 0
  {
    if n > 0 {
      PairListCount(n - 1, i);
      PairListStep(n);
      var previous := PairList(n - 1);
      assert multiset(PairList(n)) == multiset(previous) + multiset([n, n]);
    }
  }

  /** The index `shuffle` swaps with `i`: one of those from `i` on, `draw` choosing which. */
  function Pick(draw: nat, i: nat, n: nat): (j: nat)
    requires i < n
    ensures i <= j < n
  {
    i + draw % (n - i)
  }

  function Swap(s: seq<int>, i: nat, j: nat): (t: seq<int>)
    requires i < |s| && j < |s|
    ensures |t| == |s|
  {
    s[i := s[j]][j := s[i]]
  }

  /**
   * `shuffle` from position `i` on: the element at `i` is swapped with one
   * chosen among those not yet placed, `draws[i]` choosing which.
   */
  function ShuffleFrom(s: seq<int>, draws: seq<nat>, i: nat): (t: seq<int>)
    requires i <= |s| && |draws| + 1 >= |s|
    decreases |s| - i
  {
    if |s| - i <= 1 then s
    else ShuffleFrom(Swap(s, i, Pick(draws[i], i, |s|)), draws, i + 1)
  }

  function Shuffle(s: seq<int>, draws: seq<nat>): seq<int>
    requires |draws| + 1 >= |s|
  {
    ShuffleFrom(s, draws, 0)
  }

  /** A swap keeps the multiset of elements. */
  lemma SwapKeepsMultiset(s: seq<int>, i: nat, j: nat)
    requires 0 <= i < |s| && 0 <= j < |s|
    ensures multiset(Swap(s, i, j)) == multiset(s)
  {
    if i != j {
      var t := s[i := s[j]];
      assert multiset(t) == multiset(s) - multiset{s[i]} + multiset{s[j]};
      assert t[j] == s[j];
      assert multiset(t[j := s[i]]) == multiset(t) - multiset{s[j]} + multiset{s[i]};
    }
  }

  /** Shuffling only permutes: the length and the multiset of elements are kept. */
  lemma {:induction false} ShufflePermutes(s: seq<int>, draws: seq<nat>, i: nat)
    requires i <= |s| && |draws| + 1 >= |s|
    ensures |ShuffleFrom(s, draws, i)| == |s|
    ensures multiset(ShuffleFrom(s, draws, i)) == multiset(s)
    decreases |s| - i
  {
    if |s| - i > 1 {
      var j := Pick(draws[i], i, |s|);
      SwapKeepsMultiset(s, i, j);
      ShufflePermutes(Swap(s, i, j), draws, i + 1);
    }
  }

  /** The number of non-centre cells before (r, c) in row-major order: the index of the card placed there. */
  function SlotsBefore(r: int, c: int): int
  {
    var k := r * BoardSize + c;
    if k > Centre * BoardSize + Centre then k - 1 else k
  }

  /** Where the card of index `k` is placed: row-major order with the centre skipped. */
  function SlotPosition(k: int): (p: Position)
    requires 0 <= k < TotalCards
    ensures 0 <= p.row < BoardSize && 0 <= p.column < BoardSize
    ensures p != Position(Centre, Centre)
  {
    var cell := if k < Centre * BoardSize + Centre then k else k + 1;
    Position(cell / BoardSize, cell % BoardSize)
  }

  /** Cards of different indices are placed on different cells. */
  lemma SlotPositionsDistinct(k: int, l: int)
    requires 0 <= k < TotalCards && 0 <= l < TotalCards && k != l
    ensures SlotPosition(k) != SlotPosition(l)
  {
  }

  /** The slot counting of the placing loop agrees with `SlotPosition`. */
  lemma SlotsBeforeAt(r: int, c: int)
    requires 0 <= r < BoardSize && 0 <= c < BoardSize && !(r == Centre && c == Centre)
    ensures 0 <= SlotsBefore(r, c) < TotalCards
    ensures SlotPosition(SlotsBefore(r, c)) == Position(r, c)
  {
  }

  /** The card of index `k` once placed. */
  function PlacedCard(identifier: int, id: nat, k: int): MemoryCard
    requires 0 <= k < TotalCards
  {
    MemoryCard(id, identifier, FaceDown, SlotPosition(k))
  }

  function Identifiers(cards: seq<MemoryCard>): (s: seq<int>)
    ensures |s| == |cards|
  {
    seq(|cards|, k requires 0 <= k < |cards| => cards[k].imageIdentifier)
  }

  /**
   * `generateCards`: twelve pairs, shuffled, each then rebuilt face down
   * on the next cell of the board in row-major order, skipping the
   * centre.
   */
  method GenerateCards(draws: seq<nat>, ids: seq<nat>) returns (cards: seq<MemoryCard>)
    requires |draws| == TotalCards - 1 && |ids| == TotalCards
    ensures |cards| == TotalCards == 2 * PairsCount
    ensures Identifiers(cards) == Shuffle(PairList(PairsCount), draws)
    ensures multiset(Identifiers(cards)) == multiset(PairList(PairsCount))
    ensures forall k :: 0 <= k < TotalCards ==> cards[k] == PlacedCard(cards[k].imageIdentifier, ids[k], k)
  {
    var identifiers := AppendPairs();
    var shuffled := Shuffle(identifiers, draws);
    ShufflePermutes(identifiers, draws, 0);
    var interim := Unplaced(shuffled);
    cards := AssignPositions(interim, ids);
    KeptIdentifiers(interim, cards, ids);
  }

  /** The shuffled cards before placing: face down, their ids never read. */
  function Unplaced(identifiers: seq<int>): (cards: seq<MemoryCard>)
    ensures Identifiers(cards) == identifiers
  {
    seq(|identifiers|, k requires 0 <= k < |identifiers| => MemoryCard(0, identifiers[k], FaceDown, Position(0, 0)))
  }

  /** Placing keeps each card's identifier. */
  lemma KeptIdentifiers(interim: seq<MemoryCard>, cards: seq<MemoryCard>, ids: seq<nat>)
    requires |interim| == TotalCards && |cards| == TotalCards && |ids| == TotalCards
    requires forall k :: 0 <= k < TotalCards ==> cards[k] == PlacedCard(interim[k].imageIdentifier, ids[k], k)
    ensures Identifiers(cards) == Identifiers(interim)
    ensures forall k :: 0 <= k < TotalCards ==> cards[k] == PlacedCard(cards[k].imageIdentifier, ids[k], k)
  {
  }

  /**
   * The first loop of `generateCards`: two cards for each identifier. Only
   * their identifiers matter, since each card is rebuilt when placed.
   */
  method AppendPairs() returns (identifiers: seq<int>)
    ensures identifiers == PairList(PairsCount)
  {
    identifiers := [];
    for i := 1 to PairsCount + 1
      invariant identifiers == PairList(i - 1)
    {
      for copy := 1 to 3
        invariant identifiers == PairList(i - 1) + seq(copy - 1, _ => i)
      {
        identifiers := identifiers + [i];
      }
      PairListStep(i);
    }
  }

  /**
   * The placing loop of `generateCards`: walking the board row by row and
   * skipping the centre, the card of the next index is rebuilt face down
   * at that cell with a new id. Its guard `index < cards.count` always
   * holds, since 24 cards fill the 24 cells exactly.
   */
  method AssignPositions(interim: seq<MemoryCard>, ids: seq<nat>) returns (cards: seq<MemoryCard>)
    requires |interim| == TotalCards && |ids| == TotalCards
    ensures |cards| == TotalCards
    ensures forall k :: 0 <= k < TotalCards ==> cards[k] == PlacedCard(interim[k].imageIdentifier, ids[k], k)
  {
    cards := interim;
    var index := 0;
    for row := 0 to BoardSize
      invariant index == SlotsBefore(row, 0)
      invariant |cards| == TotalCards
      invariant forall k :: 0 <= k < index ==> cards[k] == PlacedCard(interim[k].imageIdentifier, ids[k], k)
      invariant forall k :: index <= k < TotalCards ==> cards[k] == interim[k]
    {
      for column := 0 to BoardSize
        invariant index == SlotsBefore(row, column)
        invariant |cards| == TotalCards
        invariant forall k :: 0 <= k < index ==> cards[k] == PlacedCard(interim[k].imageIdentifier, ids[k], k)
        invariant forall k :: index <= k < TotalCards ==> cards[k] == interim[k]
      {
        if row == Centre && column == Centre {
          continue;
        }
        SlotsBeforeAt(row, column);
        cards := cards[index := MemoryCard(ids[index], cards[index].imageIdentifier, FaceDown, Position(row, column))];
        index := index + 1;
      }
    }
  }

  /** Every generated deck holds each identifier from 1 to 12 exactly twice. */
  lemma EachIdentifierTwice(cards: seq<MemoryCard>, i: int)
    requires multiset(Identifiers(cards)) == multiset(PairList(PairsCount))
    ensures multiset(Identifiers(cards))[i] == if 1 <= i <= PairsCount then 2 else 0
  {
    PairListCount(PairsCount, i);
  }
}
