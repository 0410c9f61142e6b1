/** The records of the match engine: matchmaking-queue entries, cards, deck entries
    and the game room with its two player states and its action log, in the shapes
    convex/game.ts builds them. */
module Types {

  datatype Option<+T> = None | Some(value: T)

  /** An operation either succeeds with a value or is refused with the source's message. */
  datatype Result<+T> = Ok(value: T) | Err(reason: string)

  type UserId = nat
  type CardId = nat
  type DeckId = nat
  type GameId = nat
  type QueueId = nat

  // ---- matchmaking queue ----

  datatype QueueStatus = Waiting | Matched | Canceled | Expired
  datatype Mode = Ranked | Unranked
  datatype QueueEntry = QueueEntry(
    id: QueueId,
    userId: UserId,
    deckId: DeckId,
    status: QueueStatus,
    mode: Mode,
    joinedAt: int)

  // ---- card catalog and deck builder (read-only collaborators) ----

  /** "normal" is the monster kind. */
  datatype CardType = Normal | Trap | Spell
  datatype Card = Card(name: string, level: int, cardType: CardType)
  datatype DeckEntry = DeckEntry(cardId: CardId, quantity: int)

  // ---- game room ----

  datatype PlayerSlot = Player1 | Player2
  datatype Phase = Draw | Standby | Main1 | Battle | Main2 | End
  datatype GameStatus = WaitingForPlayer2 | Active | Finished | Aborted
  datatype Position = Attack | Defense | FaceDownDefense
  datatype MonsterSlot = MonsterSlot(cardId: CardId, position: Position)

  /** `None` is an empty zone; a zone's index is its identity. */
  datatype Zones = Zones(
    monsters: seq<Option<MonsterSlot>>,
    spellsAndTraps: seq<Option<CardId>>,
    fieldSpell: Option<CardId>)

  datatype PlayerState = PlayerState(
    lifePoints: int,
    hand: seq<CardId>,
    zones: Zones,
    hasNormalSummonedThisTurn: bool,
    deck: seq<CardId>,
    deckSize: int,
    graveyard: seq<CardId>,
    banished: seq<CardId>,
    extraDeck: seq<CardId>)

  datatype ActionType =
    | LogDraw | LogNormalSummon | LogSpecialSummon | LogSet | LogActivated
    | LogAttacked | LogAdvancePhase | LogEndTurn | LogGameStart

  datatype LogEntry = LogEntry(
    timestamp: int,
    turnNumber: int,
    player: PlayerSlot,
    actionType: ActionType,
    cardId: Option<CardId>,
    fromZone: Option<string>,
    toZone: Option<string>,
    description: string)

  datatype Game = Game(
    player1Id: UserId,
    player2Id: UserId,
    player1Deck: DeckId,
    player2Deck: DeckId,
    status: GameStatus,
    winnerId: Option<UserId>,
    startedAt: int,
    finishedAt: Option<int>,
    currentTurn: PlayerSlot,
    turnNumber: int,
    phase: Phase,
    player1State: PlayerState,
    player2State: PlayerState,
    actionsLog: seq<LogEntry>)

  // ---- typed access to the two player records ----
  // The source picks `player1State` or `player2State` by a computed key; these
  // accessors are that choice.

  function Other(p: PlayerSlot): (q: PlayerSlot)
    ensures q != p
  {
    if p == Player1 then Player2 else Player1
  }

  function StateOf(g: Game, p: PlayerSlot): PlayerState {
    if p == Player1 then g.player1State else g.player2State
  }

  function PlayerId(g: Game, p: PlayerSlot): UserId {
    if p == Player1 then g.player1Id else g.player2Id
  }

  /** The seat of `user`, checked player1 first as the mutations do. */
  function SeatOf(g: Game, user: UserId): (r: Option<PlayerSlot>)
    ensures r.Some? ==> PlayerId(g, r.value) == user
    ensures g.player1Id == user ==> r == Some(Player1)
    ensures r.None? <==> g.player1Id != user && g.player2Id != user
  {
    if g.player1Id == user then Some(Player1)
    else if g.player2Id == user then Some(Player2)
    else None
  }

  /** The game with the record at key `p` replaced and every other field kept. */
  function WithState(g: Game, p: PlayerSlot, ps: PlayerState): (h: Game)
    ensures StateOf(h, p) == ps
    ensures StateOf(h, Other(p)) == StateOf(g, Other(p))
    ensures h.(player1State := g.player1State, player2State := g.player2State) == g
  {
    if p == Player1 then g.(player1State := ps) else g.(player2State := ps)
  }

  /** What every stored game satisfies: `deckSize` is the length of `deck`, and there
      are five monster zones, for both players. */
  ghost predicate Consistent(g: Game) {
    && g.player1State.deckSize == |g.player1State.deck|
    && g.player2State.deckSize == |g.player2State.deck|
    && |g.player1State.zones.monsters| == 5
    && |g.player2State.zones.monsters| == 5
  }

  // ---- text ----

  /** Decimal digits of `n`, as a template literal renders a whole number. */
  function NatToString(n: nat): (s: string)
    ensures |s| >= 1
    ensures forall k :: 0 <= k < |s| ==> '0' <= s[k] <= '9'
  {
    if n < 10 then [DigitChar(n)] else NatToString(n / 10) + [DigitChar(n % 10)]
  }

  function DigitChar(d: nat): (c: char)
    requires d < 10
    ensures '0' <= c <= '9'
  {
    (48 + d) as char
  }
}
