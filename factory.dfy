/** The records the match factory creates: the empty player record and the initial
    game room. */
module Factory {
  import opened Types

  const StartingLifePoints: int := 8000

  /** Five empty monster zones, five empty spell/trap zones, no field spell. */
  function InitialZones(): Zones {
    Zones([None, None, None, None, None], [None, None, None, None, None], None)
  }

  /** The template record; its `deckSize` of 40 is a placeholder that the factory
      always overwrites. */
  function EmptyPlayerState(): PlayerState {
    PlayerState(StartingLifePoints, [], InitialZones(), false, [], 40, [], [], [])
  }

  /** A player's record at the start: the opening hand, the rest of the shuffled list
      as the deck, and `deckSize` counted from it. */
  function InitialPlayerState(hand: seq<CardId>, deck: seq<CardId>): (ps: PlayerState)
    ensures ps.hand == hand && ps.deck == deck && ps.deckSize == |deck|
    ensures ps.lifePoints == StartingLifePoints && !ps.hasNormalSummonedThisTurn
    ensures |ps.zones.monsters| == 5 && forall j :: 0 <= j < 5 ==> ps.zones.monsters[j].None?
    ensures ps.graveyard == [] && ps.banished == [] && ps.extraDeck == []
  {
    EmptyPlayerState().(hand := hand, hasNormalSummonedThisTurn := false, deck := deck, deckSize := |deck|)
  }

  function GameStartEntry(now: int): LogEntry {
    LogEntry(now, 0, Player1, LogGameStart, None, None, None, "Game created - Player 1 vs Player 2")
  }

  /** The game room created for the two paired queue entries. */
  function InitialGame(
    entry1: QueueEntry, entry2: QueueEntry,
    hand1: seq<CardId>, deck1: seq<CardId>,
    hand2: seq<CardId>, deck2: seq<CardId>,
    now: int): (g: Game)
    ensures Consistent(g)
    ensures g.player1Id == entry1.userId && g.player2Id == entry2.userId
    ensures g.player1Deck == entry1.deckId && g.player2Deck == entry2.deckId
    ensures g.status == Active && g.winnerId == None && g.finishedAt == None
    ensures g.currentTurn == Player1 && g.turnNumber == 1 && g.phase == Draw
    ensures g.player1State == InitialPlayerState(hand1, deck1)
    ensures g.player2State == InitialPlayerState(hand2, deck2)
    ensures |g.actionsLog| == 1 && g.actionsLog[0].actionType == LogGameStart
  {
    Game(
      entry1.userId, entry2.userId, entry1.deckId, entry2.deckId,
      Active, None, now, None,
      Player1, 1, Draw,
      InitialPlayerState(hand1, deck1), InitialPlayerState(hand2, deck2),
      [GameStartEntry(now)])
  }
}
