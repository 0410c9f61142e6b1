/** Consequences of the match engine over several calls: a player's whole turn of
    `advancePhase` calls, the first hand-over of a new room, and two users queueing
    until matchmaking pairs them. */
module Scenario {
  import opened Types
  import Deck
  import Queue
  import Factory
  import Turns
  import Store

  /** The room after `n` calls of `advancePhase` by the same caller; the first refusal
      ends the run with its message. */
  function AdvanceRun(g: Game, caller: UserId, now: int, n: nat): (r: Result<Game>)
    requires Consistent(g)
    ensures r.Ok? ==> Consistent(r.value)
    decreases n
  {
    if n == 0 then Ok(g)
    else
      match AdvanceRun(g, caller, now, n - 1)
      case Err(reason) => Err(reason)
      case Ok(h) =>
        match Turns.AdvancePhase(h, caller, now)
        case Err(reason) => Err(reason)
        case Ok((h', _)) => Ok(h')
  }

  /** The same turn, status, seats and player records: only the phase and the log may differ. */
  predicate SameTurn(g: Game, h: Game) {
    && h.currentTurn == g.currentTurn && h.turnNumber == g.turnNumber
    && h.status == g.status
    && h.player1Id == g.player1Id && h.player2Id == g.player2Id
    && h.player1State == g.player1State && h.player2State == g.player2State
  }

  /** Within a turn the player whose turn it is walks the phases in order: after `n`
      calls the room is `n` phases further, with the same turn, the same status and
      both player records untouched. */
  lemma {:induction false} AdvancesWithinATurn(g: Game, now: int, n: nat)
    requires Consistent(g) && g.status == Active && g.player1Id != g.player2Id
    requires Turns.PhaseIndex(g.phase) + n < |Turns.PhaseOrder|
    ensures var r := AdvanceRun(g, PlayerId(g, g.currentTurn), now, n);
      && r.Ok?
      && Turns.PhaseIndex(r.value.phase) == Turns.PhaseIndex(g.phase) + n
      && r.value.phase == Turns.PhaseOrder[Turns.PhaseIndex(g.phase) + n]
      && SameTurn(g, r.value)
    decreases n
  {
    if n > 0 {
      var caller := PlayerId(g, g.currentTurn);
      AdvancesWithinATurn(g, now, n - 1);
      var h := AdvanceRun(g, caller, now, n - 1).value;
      OwnerAdvances(g, h, caller, now);
      RunExtends(g, caller, now, n, h);
    }
  }

  /** One more call extends an accepted run by that call's room. */
  lemma RunExtends(g: Game, caller: UserId, now: int, n: nat, h: Game)
    requires Consistent(g) && n > 0 && AdvanceRun(g, caller, now, n - 1) == Ok(h)
    requires Turns.AdvancePhase(h, caller, now).Ok?
    ensures AdvanceRun(g, caller, now, n) == Ok(Turns.AdvancePhase(h, caller, now).value.0)
  {
  }

  /** Before `end`, one call by the player whose turn it is moves the room to the next
      phase and changes no turn, status, seat or player record. */
  lemma OwnerAdvances(g: Game, h: Game, caller: UserId, now: int)
    requires g.status == Active && g.player1Id != g.player2Id && caller == PlayerId(g, g.currentTurn)
    requires Consistent(h) && SameTurn(g, h) && h.phase != End
    ensures var r := Turns.AdvancePhase(h, caller, now);
      && r.Ok?
      && Turns.PhaseIndex(r.value.0.phase) == Turns.PhaseIndex(h.phase) + 1
      && SameTurn(g, r.value.0)
  {
    assert SeatOf(h, caller) == Some(h.currentTurn);
  }

  /** Six calls by the player whose turn it is, starting from their draw phase, hand the
      turn over: the other player's draw phase of the next turn, where that player has
      drawn their top card, or, from an empty deck, the room is finished with the first
      player as winner. */
  lemma OneFullTurn(g: Game, now: int)
    requires Consistent(g) && g.status == Active && g.player1Id != g.player2Id
    requires g.phase == Draw && g.turnNumber >= 1
    ensures var r := AdvanceRun(g, PlayerId(g, g.currentTurn), now, 6);
      var cur, next := g.currentTurn, Other(g.currentTurn);
      var before := StateOf(g, next);
      && r.Ok?
      && r.value.phase == Draw && r.value.currentTurn == next && r.value.turnNumber == g.turnNumber + 1
      && !StateOf(r.value, next).hasNormalSummonedThisTurn
      && (before.deckSize > 0 ==>
            && r.value.status == Active
            && StateOf(r.value, next).hand == before.hand + [before.deck[0]]
            && StateOf(r.value, next).deck == before.deck[1..]
            && StateOf(r.value, cur) == StateOf(g, cur))
      && (before.deckSize <= 0 ==>
            r.value.status == Finished && r.value.winnerId == Some(PlayerId(g, cur)))
  {
    var caller := PlayerId(g, g.currentTurn);
    AdvancesWithinATurn(g, now, 5);
    var e := AdvanceRun(g, caller, now, 5).value;
    assert e.phase == End;
    assert SeatOf(e, caller) == Some(g.currentTurn);
    assert Turns.AdvanceCheck(e, caller).Ok?;
    Turns.EndPhaseHandsTurnOver(e, caller, now);
  }

  /** In a new room player1 never draws on turn 1; player1's six calls bring player2 to
      turn 2 with the top card of their deck added to their opening hand. */
  lemma PlayerTwoDrawsFirst(
    entry1: QueueEntry, entry2: QueueEntry,
    hand1: seq<CardId>, deck1: seq<CardId>, hand2: seq<CardId>, deck2: seq<CardId>,
    now: int, later: int)
    requires entry1.userId != entry2.userId && deck2 != []
    ensures var g := Factory.InitialGame(entry1, entry2, hand1, deck1, hand2, deck2, now);
      var r := AdvanceRun(g, entry1.userId, later, 6);
      && r.Ok?
      && r.value.currentTurn == Player2 && r.value.turnNumber == 2 && r.value.phase == Draw
      && r.value.player1State.hand == hand1 && r.value.player1State.deck == deck1
      && r.value.player2State.hand == hand2 + [deck2[0]]
      && r.value.player2State.deck == deck2[1..]
  {
    var g := Factory.InitialGame(entry1, entry2, hand1, deck1, hand2, deck2, now);
    OneFullTurn(g, later);
  }

  /** A new database in which `u1` and then `u2` queue with decks `d1` and `d2`: both
      calls succeed and the queue holds their two waiting entries, ids 0 and 1. */
  method QueueTwo(
    u1: UserId, u2: UserId, d1: DeckId, d2: DeckId,
    entries1: seq<DeckEntry>, entries2: seq<DeckEntry>, t1: int, t2: int)
    returns (db: Store.Database)
    requires u1 != u2 && d1 != d2
    ensures fresh(db) && db.Valid()
    ensures db.queue == [QueueEntry(0, u1, d1, Waiting, Unranked, t1), QueueEntry(1, u2, d2, Waiting, Unranked, t2)]
    ensures db.games == map[] && db.nextGameId == 0
    ensures db.deckEntries == map[d1 := entries1, d2 := entries2]
  {
    db := new Store.Database(map[d1 := entries1, d2 := entries2], map[]);
    assert Queue.EnqueueRefusal(db.queue, db.games, u1).None?;
    var _ := db.QueueForMatch(u1, d1, Unranked, t1);
    assert db.queue == [QueueEntry(0, u1, d1, Waiting, Unranked, t1)] && db.games == map[];
    assert Queue.FirstOpenEntry(db.queue, u2).None?;
    assert Queue.EnqueueRefusal(db.queue, db.games, u2).None?;
    var _ := db.QueueForMatch(u2, d2, Unranked, t2);
  }

  /** Two users with different decks queue, the first no later than the second, and
      matchmaking runs: one room is created with the first as player1, each player holds
      five cards drawn from their own deck, every other card of that deck is in their
      deck pile, and both queue entries are marked matched. */
  method MatchTwoPlayers(
    u1: UserId, u2: UserId, d1: DeckId, d2: DeckId,
    entries1: seq<DeckEntry>, entries2: seq<DeckEntry>,
    roll1: nat -> nat, roll2: nat -> nat, t1: int, t2: int, now: int)
    returns (created: Result<Option<GameId>>, room: Game, queue: seq<QueueEntry>)
    requires u1 != u2 && d1 != d2 && t1 <= t2
    requires Deck.TotalQuantity(entries1) >= 5 && Deck.TotalQuantity(entries2) >= 5
    ensures created == Ok(Some(0))
    ensures room.player1Id == u1 && room.player2Id == u2
    ensures room.status == Active && room.currentTurn == Player1 && room.turnNumber == 1 && room.phase == Draw
    ensures |room.player1State.hand| == 5 && |room.player2State.hand| == 5
    ensures |room.player1State.deck| == Deck.TotalQuantity(entries1) - 5
    ensures |room.player2State.deck| == Deck.TotalQuantity(entries2) - 5
    ensures forall c :: multiset(room.player1State.hand)[c] + multiset(room.player1State.deck)[c] == Deck.QuantityOf(entries1, c)
    ensures forall c :: multiset(room.player2State.hand)[c] + multiset(room.player2State.deck)[c] == Deck.QuantityOf(entries2, c)
    ensures |queue| == 2 && queue[0].userId == u1 && queue[1].userId == u2
    ensures queue[0].status == Matched && queue[1].status == Matched
  {
    var db := QueueTwo(u1, u2, d1, d2, entries1, entries2, t1, t2);
    var q := db.queue;
    Queue.NoPairMeansFewerThanTwo(q);
    assert q[0].status == Waiting && q[1].status == Waiting;
    var (a, b) := Queue.OldestTwoWaiting(q).value;
    assert Queue.NoLater(q, a, 0) && Queue.NoLater(q, a, 1);
    assert a == 0 && b == 1;
    Deck.ExpandedLength(entries1);
    Deck.ExpandedLength(entries2);
    assert Store.EntriesOf(db.deckEntries, d1) == entries1;
    assert Store.EntriesOf(db.deckEntries, d2) == entries2;
    created := db.CreateGameFromQueue(roll1, roll2, now);
    room := db.games[0];
    queue := db.queue;
    forall c
      ensures multiset(room.player1State.hand)[c] + multiset(room.player1State.deck)[c] == Deck.QuantityOf(entries1, c)
      ensures multiset(room.player2State.hand)[c] + multiset(room.player2State.deck)[c] == Deck.QuantityOf(entries2, c)
    {
      Deck.OpeningDealKeepsEveryCard(entries1, roll1, c);
      Deck.OpeningDealKeepsEveryCard(entries2, roll2, c);
    }
    Deck.OpeningDealKeepsEveryCard(entries1, roll1, 0);
    Deck.OpeningDealKeepsEveryCard(entries2, roll2, 0);
  }
}
