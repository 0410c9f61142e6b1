/** The two tables the match engine writes, the matchmaking queue and the game rooms,
    with the mutations of convex/game.ts as methods. A mutation that throws leaves the
    tables as they were (a Convex mutation is one transaction); here it returns `Err`
    and changes nothing. The deck builder's entries and the card catalog are read only. */
module Store {
  import opened Types
  import Deck
  import Queue
  import Factory
  import Turns
  import Summon

  /** The deck entries stored for `deckId`; none when the deck has none. */
  function EntriesOf(deckEntries: map<DeckId, seq<DeckEntry>>, deckId: DeckId): seq<DeckEntry> {
    if deckId in deckEntries then deckEntries[deckId] else []
  }

  /** The shuffled, expanded list a queue entry's deck becomes. */
  function DealtDeck(deckEntries: map<DeckId, seq<DeckEntry>>, deckId: DeckId, roll: nat -> nat): seq<CardId> {
    Deck.Shuffled(Deck.Expanded(EntriesOf(deckEntries, deckId)), roll)
  }

  class Database {
    var queue: seq<QueueEntry>
    var games: map<GameId, Game>
    var nextQueueId: QueueId
    var nextGameId: GameId
    const deckEntries: map<DeckId, seq<DeckEntry>>
    const cards: map<CardId, Card>

    /** Ids below the counters; at most one waiting-or-matched entry per user; every
        stored room consistent and seating two different users. */
    ghost predicate Valid()
      reads this
    {
      && (forall i :: 0 <= i < |queue| ==> queue[i].id < nextQueueId)
      && Queue.OneOpenPerUser(queue)
      && (forall id :: id in games ==>
            && id < nextGameId && Consistent(games[id])
            && games[id].player1Id != games[id].player2Id)
    }

    constructor (deckEntries: map<DeckId, seq<DeckEntry>>, cards: map<CardId, Card>)
      ensures Valid()
      ensures queue == [] && games == map[] && nextQueueId == 0 && nextGameId == 0
      ensures this.deckEntries == deckEntries && this.cards == cards
    {
      queue := [];
      games := map[];
      nextQueueId := 0;
      nextGameId := 0;
      this.deckEntries := deckEntries;
      this.cards := cards;
    }

    /** `queueForMatch`: refused while the user has an open entry or an active game;
        otherwise one `waiting` entry is inserted and its id returned. */
    method QueueForMatch(user: UserId, deckId: DeckId, mode: Mode, now: int) returns (r: Result<QueueId>)
      requires Valid()
      modifies this
      ensures Valid()
      ensures Queue.EnqueueRefusal(old(queue), old(games), user).Some? ==>
        && r == Err(Queue.EnqueueRefusal(old(queue), old(games), user).value)
        && queue == old(queue) && games == old(games) && nextQueueId == old(nextQueueId)
      ensures Queue.EnqueueRefusal(old(queue), old(games), user).None? ==>
        && r == Ok(old(nextQueueId))
        && queue == old(queue) + [QueueEntry(old(nextQueueId), user, deckId, Waiting, mode, now)]
        && nextQueueId == old(nextQueueId) + 1
        && games == old(games)
      ensures nextGameId == old(nextGameId)
    {
      var existing := Queue.FirstOpenEntry(queue, user);
      if existing.Some? {
        return Err("Already in queue or matched");
      }
      var asP1 := Queue.ActiveAs(games, user, Player1);
      var asP2 := Queue.ActiveAs(games, user, Player2);
      if asP1 || asP2 {
        if asP1 && asP2 {
          return Err("data inconsistency: user in multiple active games");
        }
        return Err("already in an active game");
      }
      var queueId := nextQueueId;
      assert forall m :: 0 <= m < |queue| ==> !Queue.OpenFor(queue[m], user);
      queue := queue + [QueueEntry(queueId, user, deckId, Waiting, mode, now)];
      nextQueueId := nextQueueId + 1;
      r := Ok(queueId);
    }

    /** `cancelQueue`: deletes the user's first open entry, whatever its age, and says
        whether there was one. */
    method CancelQueue(user: UserId) returns (removed: bool)
      requires Valid()
      modifies this
      ensures Valid()
      ensures removed <==> Queue.FirstOpenEntry(old(queue), user).Some?
      ensures removed ==>
        var k := Queue.FirstOpenEntry(old(queue), user).value;
        queue == old(queue)[..k] + old(queue)[k + 1..]
      ensures !removed ==> queue == old(queue)
      ensures Queue.FirstOpenEntry(queue, user).None?
      ensures games == old(games) && nextQueueId == old(nextQueueId) && nextGameId == old(nextGameId)
    {
      var found := Queue.FirstOpenEntry(queue, user);
      if found.None? {
        return false;
      }
      var k := found.value;
      ghost var before := queue;
      Queue.CancelLeavesNoOpenEntry(queue, user);
      queue := queue[..k] + queue[k + 1..];
      forall i, j | 0 <= i < j < |queue| && Queue.IsOpen(queue[i]) && Queue.IsOpen(queue[j])
        ensures queue[i].userId != queue[j].userId
      {
        var i', j' := if i < k then i else i + 1, if j < k then j else j + 1;
        assert queue[i] == before[i'] && queue[j] == before[j'];
      }
      removed := true;
    }

    /** `cleanupOldQueueEntries`: the sweep of stale waiting and matched entries. */
    method CleanupOldQueueEntries(now: int) returns (cleanedCount: nat)
      requires Valid()
      modifies this
      ensures Valid()
      ensures queue == Queue.Survivors(old(queue), games, now)
      ensures cleanedCount == Queue.StaleCount(old(queue), games, now)
      ensures games == old(games) && nextQueueId == old(nextQueueId) && nextGameId == old(nextGameId)
    {
      var kept;
      kept, cleanedCount := Queue.PlanCleanup(queue, games, now);
      Queue.SurvivorsAreTheFreshEntries(queue, games, now);
      Queue.SurvivorsKeepOneOpenPerUser(queue, games, now);
      forall i | 0 <= i < |kept|
        ensures kept[i].id < nextQueueId
      {
        assert kept[i] in queue;
      }
      queue := kept;
    }

    /** `createGameFromQueue`: pairs the two oldest waiting entries, deals each player
        five cards from their shuffled deck, inserts the room and marks both entries
        matched. With fewer than two waiting entries nothing happens; a deck of fewer
        than five cards makes the mutation throw. */
    method CreateGameFromQueue(roll1: nat -> nat, roll2: nat -> nat, now: int) returns (r: Result<Option<GameId>>)
      requires Valid()
      modifies this
      ensures Valid()
      ensures nextQueueId == old(nextQueueId)
      ensures Queue.OldestTwoWaiting(old(queue)).None? ==>
        r == Ok(None) && queue == old(queue) && games == old(games) && nextGameId == old(nextGameId)
      ensures Queue.OldestTwoWaiting(old(queue)).Some? ==>
        var (a, b) := Queue.OldestTwoWaiting(old(queue)).value;
        var e1, e2 := old(queue)[a], old(queue)[b];
        var s1, s2 := DealtDeck(deckEntries, e1.deckId, roll1), DealtDeck(deckEntries, e2.deckId, roll2);
        if |s1| < 5 || |s2| < 5 then
          && r == Err("Not enough cards in deck to draw 5")
          && queue == old(queue) && games == old(games) && nextGameId == old(nextGameId)
        else
          && r == Ok(Some(old(nextGameId)))
          && games == old(games)[old(nextGameId) := Factory.InitialGame(e1, e2, s1[..5], s1[5..], s2[..5], s2[5..], now)]
          && queue == old(queue)[a := e1.(status := Matched)][b := e2.(status := Matched)]
          && nextGameId == old(nextGameId) + 1
    {
      var pair := Queue.OldestTwoWaiting(queue);
      if pair.None? {
        return Ok(None);
      }
      var (a, b) := pair.value;
      var player1Queue, player2Queue := queue[a], queue[b];
      assert player1Queue.userId != player2Queue.userId by {
        if a < b {} else {}
      }
      var p1Draw := DealOpening(player1Queue.deckId, roll1);
      if p1Draw.Err? {
        return Err(p1Draw.reason);
      }
      var p2Draw := DealOpening(player2Queue.deckId, roll2);
      if p2Draw.Err? {
        return Err(p2Draw.reason);
      }
      var game := Factory.InitialGame(
        player1Queue, player2Queue,
        p1Draw.value.drawn, p1Draw.value.remaining,
        p2Draw.value.drawn, p2Draw.value.remaining, now);
      var gameId := nextGameId;
      games := games[gameId := game];
      nextGameId := nextGameId + 1;
      MarkMatched(a, b);
      r := Ok(Some(gameId));
    }

    /** Marks two waiting queue entries matched; ids, users and openness stay as they were. */
    method MarkMatched(a: nat, b: nat)
      requires Valid() && a < |queue| && b < |queue|
      requires queue[a].status == Waiting && queue[b].status == Waiting
      modifies this
      ensures Valid()
      ensures queue == old(queue)[a := old(queue)[a].(status := Matched)][b := old(queue)[b].(status := Matched)]
      ensures games == old(games) && nextQueueId == old(nextQueueId) && nextGameId == old(nextGameId)
    {
      ghost var before := queue;
      queue := queue[a := queue[a].(status := Matched)];
      queue := queue[b := queue[b].(status := Matched)];
      forall i, j | 0 <= i < j < |queue| && Queue.IsOpen(queue[i]) && Queue.IsOpen(queue[j])
        ensures queue[i].userId != queue[j].userId
      {
        assert queue[i].userId == before[i].userId && queue[j].userId == before[j].userId;
        assert Queue.IsOpen(before[i]) && Queue.IsOpen(before[j]);
      }
    }

    /** A deck's entries expanded, shuffled and split into a five-card hand and the
        rest; refused when the deck holds fewer than five cards. */
    method DealOpening(deckId: DeckId, roll: nat -> nat) returns (r: Result<Deck.Split>)
      ensures var s := DealtDeck(deckEntries, deckId, roll);
        && (r.Err? <==> |s| < 5)
        && (r.Err? ==> r.reason == "Not enough cards in deck to draw 5")
        && (r.Ok? ==> r.value.drawn == s[..5] && r.value.remaining == s[5..])
    {
      var cards := Deck.ExpandDeck(EntriesOf(deckEntries, deckId));
      r := Deck.DrawCards(cards, 5, roll);
      assert NatToString(5) == "5";
      if r.Ok? {
        var s := Deck.Shuffled(cards, roll);
        assert s == r.value.drawn + r.value.remaining;
        assert r.value.drawn == s[..5] && r.value.remaining == s[5..];
      }
    }

    /** `drawCard`: one draw for the named seat in an active room, with no check of the
        caller, the turn or the phase. */
    method DrawCard(gameId: GameId, playerDrawing: PlayerSlot, now: int) returns (r: Result<Turns.DrawReply>)
      requires Valid()
      modifies this
      ensures Valid()
      ensures gameId !in old(games) ==> r == Err("Game not found") && games == old(games)
      ensures gameId in old(games) && old(games)[gameId].status != Active ==>
        r == Err("Game not active") && games == old(games)
      ensures gameId in old(games) && old(games)[gameId].status == Active ==>
        var (h, reply) := Turns.DrawOnGame(old(games)[gameId], playerDrawing, now);
        r == Ok(reply) && games == old(games)[gameId := h]
      ensures queue == old(queue) && nextQueueId == old(nextQueueId) && nextGameId == old(nextGameId)
    {
      if gameId !in games {
        return Err("Game not found");
      }
      var game := games[gameId];
      if game.status != Active {
        return Err("Game not active");
      }
      var (h, reply) := Turns.DrawOnGame(game, playerDrawing, now);
      Patch(gameId, h);
      r := Ok(reply);
    }

    /** `processPhaseEntry` on the stored room: a draw through `drawCard` when the room
        is in its draw phase, except on player1's turn 1. */
    method ProcessPhaseEntry(gameId: GameId, currentPlayer: PlayerSlot, now: int)
      requires Valid() && gameId in games && games[gameId].status == Active
      modifies this
      ensures Valid()
      ensures games == old(games)[gameId := Turns.ProcessPhaseEntry(old(games)[gameId], currentPlayer, now).0]
      ensures queue == old(queue) && nextQueueId == old(nextQueueId) && nextGameId == old(nextGameId)
    {
      var game := games[gameId];
      if game.phase != Draw {
        return;
      }
      if game.turnNumber == 1 && currentPlayer == Player1 {
        return;
      }
      var _ := DrawCard(gameId, currentPlayer, now);
    }

    /** `advancePhase`: the checks, the patch, a re-read of the room, phase-entry
        processing, and the reply built from the re-read room. */
    method AdvancePhase(gameId: GameId, caller: UserId, now: int) returns (r: Result<Turns.AdvanceReply>)
      requires Valid()
      modifies this
      ensures Valid()
      ensures gameId !in old(games) ==> r == Err("Game not found") && games == old(games)
      ensures gameId in old(games) ==>
        var outcome := Turns.AdvancePhase(old(games)[gameId], caller, now);
        && (outcome.Err? ==> r == Err(outcome.reason) && games == old(games))
        && (outcome.Ok? ==> r == Ok(outcome.value.1) && games == old(games)[gameId := outcome.value.0])
      ensures queue == old(queue) && nextQueueId == old(nextQueueId) && nextGameId == old(nextGameId)
    {
      if gameId !in games {
        return Err("Game not found");
      }
      var game := games[gameId];
      var check := Turns.AdvanceCheck(game, caller);
      if check.Err? {
        return Err(check.reason);
      }
      var currentPlayer := check.value;
      if game.phase == End {
        var nextPlayer := Other(currentPlayer);
        Patch(gameId, Turns.EndTurnPatch(game, currentPlayer, now));
        game := games[gameId];
        ProcessPhaseEntry(gameId, nextPlayer, now);
        return Ok(Turns.TurnEnded(nextPlayer, game.turnNumber + 1, Draw));
      }
      var nextPhase := Turns.NextPhase(game.phase);
      Patch(gameId, Turns.PhasePatch(game, currentPlayer, now));
      game := games[gameId];
      ProcessPhaseEntry(gameId, currentPlayer, now);
      r := Ok(Turns.PhaseAdvanced(game.phase, nextPhase, game.turnNumber));
    }

    /** `ctx.db.patch` on a stored room: the room at `gameId` is replaced and nothing
        else changes. */
    method Patch(gameId: GameId, g: Game)
      requires Valid() && gameId in games && Consistent(g)
      requires g.player1Id == games[gameId].player1Id && g.player2Id == games[gameId].player2Id
      modifies this
      ensures Valid()
      ensures games == old(games)[gameId := g]
      ensures queue == old(queue) && nextQueueId == old(nextQueueId) && nextGameId == old(nextGameId)
    {
      games := games[gameId := g];
    }

    /** `normalSummonOrSet`: a missing room throws; otherwise the resolver's reply is
        returned and, when the summon is accepted, its room is stored. */
    method NormalSummonOrSet(
      gameId: GameId, caller: UserId, cardId: CardId, action: Summon.SummonAction,
      tributeCardIds: seq<CardId>, targetMonsterIndex: Option<int>, now: int)
      returns (r: Result<Summon.SummonReply>)
      requires Valid()
      modifies this
      ensures Valid()
      ensures gameId !in old(games) ==> r == Err("Game not found") && games == old(games)
      ensures gameId in old(games) ==>
        var check := Summon.SummonCheck(old(games)[gameId], caller, cardId, tributeCardIds, targetMonsterIndex, cards);
        && r.Ok?
        && (check.Err? ==> r.value == Summon.Refused(check.reason) && games == old(games))
        && (check.Ok? ==>
              && r.value == Summon.Summoned(if action == Summon.NormalSummon then "Monster Normal Summoned" else "Monster Set")
              && check.value.zone < |StateOf(old(games)[gameId], check.value.player).zones.monsters|
              && games == old(games)[gameId := Summon.SummonedGame(old(games)[gameId], check.value, cardId, action, tributeCardIds, now)])
      ensures queue == old(queue) && nextQueueId == old(nextQueueId) && nextGameId == old(nextGameId)
    {
      if gameId !in games {
        return Err("Game not found");
      }
      var game := games[gameId];
      var h, reply := Summon.ResolveSummon(game, caller, cardId, action, tributeCardIds, targetMonsterIndex, cards, now);
      if reply.Summoned? {
        Patch(gameId, h);
      }
      r := Ok(reply);
    }
  }
}
