/** The turn and phase machine of a game room: drawing a card (or losing by deck-out),
    the draw that entering a draw phase triggers, and advancing through
    draw, standby, main1, battle, main2, end and on to the other player's turn. */
module Turns {
  import opened Types

  // ---- phase order ----

  const PhaseOrder: seq<Phase> := [Draw, Standby, Main1, Battle, Main2, End]

  /** Where `p` stands in the order. */
  function PhaseIndex(p: Phase): (i: nat)
    ensures i < |PhaseOrder| && PhaseOrder[i] == p
  {
    match p
    case Draw => 0
    case Standby => 1
    case Main1 => 2
    case Battle => 3
    case Main2 => 4
    case End => 5
  }

  /** The phase after `p`; `end` has none inside the turn. */
  function NextPhase(p: Phase): (n: Phase)
    requires p != End
    ensures PhaseIndex(n) == PhaseIndex(p) + 1
    ensures n != Draw
  {
    PhaseOrder[PhaseIndex(p) + 1]
  }

  function PhaseName(p: Phase): string {
    match p
    case Draw => "draw"
    case Standby => "standby"
    case Main1 => "main1"
    case Battle => "battle"
    case Main2 => "main2"
    case End => "end"
  }

  // ---- drawing ----

  /** A draw reads `deck[0]` whenever `deckSize` is positive; stored records, whose
      `deckSize` is the length of `deck`, always allow it. */
  predicate DrawDefined(ps: PlayerState) {
    ps.deckSize > 0 ==> ps.deck != []
  }

  datatype DrawAttempt =
    | DeckOut(winnerId: UserId)
    | Drew(drawnCardId: CardId, newHand: seq<CardId>, newDeck: seq<CardId>, newDeckSize: int)

  /** The top card of the player's deck moves to the end of the hand; with no card
      left (`deckSize` not positive) the opponent is named winner. */
  function PerformDraw(g: Game, p: PlayerSlot): (d: DrawAttempt)
    requires DrawDefined(StateOf(g, p))
    ensures d.DeckOut? <==> StateOf(g, p).deckSize <= 0
    ensures d.DeckOut? ==> d.winnerId == PlayerId(g, Other(p))
    ensures d.Drew? ==>
      && d.newHand + d.newDeck == StateOf(g, p).hand + StateOf(g, p).deck
      && |d.newHand| == |StateOf(g, p).hand| + 1
      && d.newDeckSize == |d.newDeck|
      && d.drawnCardId == d.newHand[|d.newHand| - 1]
  {
    var ps := StateOf(g, p);
    if ps.deckSize <= 0 then
      DeckOut(PlayerId(g, Other(p)))
    else
      var drawn := ps.deck[0];
      assert ps.deck == [drawn] + ps.deck[1..];
      Drew(drawn, ps.hand + [drawn], ps.deck[1..], |ps.deck[1..]|)
  }

  datatype DrawReply =
    | DrawSuccess(newHandSize: int, newDeckSize: int)
    | DrawDeckOut(winnerId: UserId)

  function DrawEntry(g: Game, p: PlayerSlot, now: int): LogEntry {
    LogEntry(now, g.turnNumber, p, LogDraw, None, None, None, "Drew 1 card")
  }

  /** The game's fields other than the two player records and the log are those of `g`. */
  ghost predicate SameFrame(h: Game, g: Game) {
    h.(player1State := g.player1State, player2State := g.player2State, actionsLog := g.actionsLog) == g
  }

  /** What a draw commits to the game room. On deck-out the room is finished, the
      opponent wins, and the record at the key `player${isPlayer1 ? 2 : 1}State`, the
      opponent's, gets 0 life points. Otherwise the drawing player's record alone
      changes, and one `draw` entry that does not name the card is logged. */
  function DrawOnGame(g: Game, p: PlayerSlot, now: int): (r: (Game, DrawReply))
    requires DrawDefined(StateOf(g, p))
    ensures Consistent(g) ==> Consistent(r.0)
    ensures StateOf(g, p).deckSize <= 0 ==>
      && r.1 == DrawDeckOut(PlayerId(g, Other(p)))
      && r.0 == WithState(g, Other(p), StateOf(g, Other(p)).(lifePoints := 0))
                  .(status := Finished, winnerId := Some(PlayerId(g, Other(p))), finishedAt := Some(now))
    ensures StateOf(g, p).deckSize > 0 ==>
      var ps, ps' := StateOf(g, p), StateOf(r.0, p);
      && r.1 == DrawSuccess(|ps.hand| + 1, |ps.deck| - 1)
      && ps'.hand == ps.hand + [ps.deck[0]]
      && ps'.deck == ps.deck[1..]
      && ps'.deckSize == |ps'.deck|
      && ps'.(hand := ps.hand, deck := ps.deck, deckSize := ps.deckSize) == ps
      && StateOf(r.0, Other(p)) == StateOf(g, Other(p))
      && SameFrame(r.0, g)
      && r.0.actionsLog == g.actionsLog + [DrawEntry(g, p, now)]
      && r.0.actionsLog[|g.actionsLog|].actionType == LogDraw
      && r.0.actionsLog[|g.actionsLog|].cardId == None
  {
    var ps := StateOf(g, p);
    match PerformDraw(g, p)
    case DeckOut(winner) =>
      var loserKey := Other(p);
      var patched := WithState(g, loserKey, StateOf(g, loserKey).(lifePoints := 0));
      (patched.(status := Finished, winnerId := Some(winner), finishedAt := Some(now)), DrawDeckOut(winner))
    case Drew(_, newHand, newDeck, newDeckSize) =>
      var ps' := ps.(hand := newHand, deck := newDeck, deckSize := newDeckSize);
      (WithState(g, p, ps').(actionsLog := g.actionsLog + [DrawEntry(g, p, now)]),
       DrawSuccess(|newHand|, newDeckSize))
  }

  /** Deck-out as written: the player whose life points are zeroed is the winner, and
      the player who could not draw keeps theirs. */
  lemma DeckOutZeroesTheWinner(g: Game, p: PlayerSlot, now: int)
    requires DrawDefined(StateOf(g, p)) && StateOf(g, p).deckSize <= 0
    ensures var h := DrawOnGame(g, p, now).0;
      && h.winnerId == Some(PlayerId(h, Other(p)))
      && StateOf(h, Other(p)).lifePoints == 0
      && StateOf(h, p).lifePoints == StateOf(g, p).lifePoints
  {
  }

  /** Entering the draw phase draws for the player who entered it, except on player1's
      turn 1. Returns the room after the optional draw, and the draw's reply when one
      happened. */
  function ProcessPhaseEntry(g: Game, current: PlayerSlot, now: int): (r: (Game, Option<DrawReply>))
    requires DrawDefined(StateOf(g, current))
    ensures r.1.Some? <==> g.phase == Draw && !(g.turnNumber == 1 && current == Player1)
    ensures r.1.Some? ==> (r.0, r.1.value) == DrawOnGame(g, current, now)
    ensures r.1.None? ==> r.0 == g
  {
    if g.phase != Draw then (g, None)
    else if g.turnNumber == 1 && current == Player1 then (g, None)
    else
      var (h, reply) := DrawOnGame(g, current, now);
      (h, Some(reply))
  }

  // ---- advancing ----

  datatype AdvanceReply =
    | TurnEnded(nextTurn: PlayerSlot, newTurnNumber: int, newPhase: Phase)
    | PhaseAdvanced(previousPhase: Phase, newPhase: Phase, turnNumber: int)

  /** The checks before any write: an active room, a caller who holds a seat, and that
      seat's turn. Returns the caller's seat. */
  function AdvanceCheck(g: Game, caller: UserId): (r: Result<PlayerSlot>)
    ensures r.Ok? <==> g.status == Active && SeatOf(g, caller).Some? && g.currentTurn == SeatOf(g, caller).value
    ensures r.Ok? ==> r.value == g.currentTurn && PlayerId(g, r.value) == caller
    ensures g.status != Active ==> r == Err("Game is not active")
    ensures g.status == Active && SeatOf(g, caller).None? ==> r == Err("You are not a player in this game")
    ensures r.Err? && g.status == Active && SeatOf(g, caller).Some? ==> r.reason == "It is not your turn"
  {
    if g.status != Active then Err("Game is not active")
    else
      match SeatOf(g, caller)
      case None => Err("You are not a player in this game")
      case Some(current) =>
        if g.currentTurn != current then Err("It is not your turn") else Ok(current)
  }

  function EndTurnEntry(g: Game, current: PlayerSlot, now: int): LogEntry {
    LogEntry(now, g.turnNumber, current, LogEndTurn, None, None, None, "Ended turn")
  }

  function AdvanceEntry(g: Game, current: PlayerSlot, next: Phase, now: int): LogEntry {
    LogEntry(now, g.turnNumber, current, LogAdvancePhase, None, None, None,
             "Advanced to " + PhaseName(next) + " phase")
  }

  /** The patch written from the end phase: the other player's turn, the next turn
      number, the draw phase, that player's summon flag cleared, one `endTurn` entry. */
  function EndTurnPatch(g: Game, current: PlayerSlot, now: int): (h: Game)
    ensures h.currentTurn == Other(current) && h.turnNumber == g.turnNumber + 1 && h.phase == Draw
    ensures StateOf(h, Other(current)) == StateOf(g, Other(current)).(hasNormalSummonedThisTurn := false)
    ensures StateOf(h, current) == StateOf(g, current)
    ensures h.actionsLog == g.actionsLog + [EndTurnEntry(g, current, now)]
    ensures h.(currentTurn := g.currentTurn, turnNumber := g.turnNumber, phase := g.phase,
               player1State := g.player1State, player2State := g.player2State, actionsLog := g.actionsLog) == g
  {
    var next := Other(current);
    WithState(g, next, StateOf(g, next).(hasNormalSummonedThisTurn := false))
      .(currentTurn := next, turnNumber := g.turnNumber + 1, phase := Draw,
        actionsLog := g.actionsLog + [EndTurnEntry(g, current, now)])
  }

  /** The patch written from any other phase: the next phase and one `advancePhase` entry. */
  function PhasePatch(g: Game, current: PlayerSlot, now: int): (h: Game)
    requires g.phase != End
    ensures h == g.(phase := NextPhase(g.phase), actionsLog := g.actionsLog + [AdvanceEntry(g, current, NextPhase(g.phase), now)])
  {
    var next := NextPhase(g.phase);
    g.(phase := next, actionsLog := g.actionsLog + [AdvanceEntry(g, current, next, now)])
  }

  /** The whole mutation on a stored room: check, patch, re-read, phase-entry processing,
      and the reply built from the re-read room. */
  function AdvancePhase(g: Game, caller: UserId, now: int): (r: Result<(Game, AdvanceReply)>)
    requires Consistent(g)
    ensures r.Err? <==> AdvanceCheck(g, caller).Err?
    ensures r.Err? ==> r.reason == AdvanceCheck(g, caller).reason
    ensures r.Ok? ==> Consistent(r.value.0)
    ensures r.Ok? ==> r.value.0.player1Id == g.player1Id && r.value.0.player2Id == g.player2Id
    // from any phase but `end`: next phase, same turn, nothing drawn, one entry logged
    ensures r.Ok? && g.phase != End ==>
      var h := r.value.0;
      && h.phase == NextPhase(g.phase)
      && h.currentTurn == g.currentTurn && h.turnNumber == g.turnNumber
      && h.player1State == g.player1State && h.player2State == g.player2State
      && h.status == g.status
      && |h.actionsLog| == |g.actionsLog| + 1 && h.actionsLog[..|g.actionsLog|] == g.actionsLog
      && h.actionsLog[|g.actionsLog|].actionType == LogAdvancePhase
    // from `end`: the other player's draw phase of the next turn, and that player draws
    ensures r.Ok? && g.phase == End ==>
      var patched := EndTurnPatch(g, g.currentTurn, now);
      && patched.currentTurn != g.currentTurn
      && r.value.0 == ProcessPhaseEntry(patched, patched.currentTurn, now).0
  {
    match AdvanceCheck(g, caller)
    case Err(reason) => Err(reason)
    case Ok(current) =>
      if g.phase == End then
        var next := Other(current);
        var patched := EndTurnPatch(g, current, now);
        var (h, _) := ProcessPhaseEntry(patched, next, now);
        Ok((h, TurnEnded(next, patched.turnNumber + 1, Draw)))
      else
        var patched := PhasePatch(g, current, now);
        var (h, _) := ProcessPhaseEntry(patched, current, now);
        Ok((h, PhaseAdvanced(patched.phase, NextPhase(g.phase), patched.turnNumber)))
  }

  /** From the end phase an accepted call hands the turn over: the other player, the
      next turn number, the draw phase, that player's summon flag cleared and one
      `endTurn` entry; then that player draws (unless the new turn is player1's turn 1),
      which either moves their top card to their hand with one more `draw` entry or,
      from an empty deck, finishes the room with the player who ended the turn as
      winner. */
  lemma EndPhaseHandsTurnOver(g: Game, caller: UserId, now: int)
    requires Consistent(g) && g.phase == End
    requires AdvancePhase(g, caller, now).Ok?
    ensures var h, cur := AdvancePhase(g, caller, now).value.0, g.currentTurn;
      var next, before := Other(cur), StateOf(g, Other(g.currentTurn));
      var draws := !(g.turnNumber == 0 && next == Player1);
      && PlayerId(g, cur) == caller
      && h.currentTurn == next && h.turnNumber == g.turnNumber + 1 && h.phase == Draw
      && !StateOf(h, next).hasNormalSummonedThisTurn
      && h.actionsLog[..|g.actionsLog| + 1] == g.actionsLog + [EndTurnEntry(g, cur, now)]
      && (!draws ==> h.status == g.status && |h.actionsLog| == |g.actionsLog| + 1
                     && StateOf(h, next).hand == before.hand)
      && (draws && before.deckSize > 0 ==>
            && h.status == g.status
            && StateOf(h, next).hand == before.hand + [before.deck[0]]
            && StateOf(h, next).deck == before.deck[1..]
            && StateOf(h, cur) == StateOf(g, cur)
            && |h.actionsLog| == |g.actionsLog| + 2
            && h.actionsLog[|g.actionsLog| + 1].actionType == LogDraw)
      && (draws && before.deckSize <= 0 ==>
            && h.status == Finished && h.winnerId == Some(PlayerId(g, cur))
            && h.actionsLog == g.actionsLog + [EndTurnEntry(g, cur, now)])
  {
    var cur := g.currentTurn;
    var patched := EndTurnPatch(g, cur, now);
    assert AdvanceCheck(g, caller) == Ok(cur);
    assert Other(Other(cur)) == cur;
    var h := AdvancePhase(g, caller, now).value.0;
    assert h == ProcessPhaseEntry(patched, Other(cur), now).0;
    if patched.turnNumber == 1 && Other(cur) == Player1 {
      assert h == patched;
    } else {
      assert h == DrawOnGame(patched, Other(cur), now).0;
      assert (g.actionsLog + [EndTurnEntry(g, cur, now)] + [DrawEntry(patched, Other(cur), now)])[..|g.actionsLog| + 1]
        == g.actionsLog + [EndTurnEntry(g, cur, now)];
    }
  }

  /** The reply of an end-of-turn call re-reads the already advanced turn number and adds
      one more: it reports a turn number two past the one the call started from. */
  lemma TurnEndedReplyIsOneTooFar(g: Game, caller: UserId, now: int)
    requires Consistent(g) && g.phase == End
    requires AdvancePhase(g, caller, now).Ok?
    ensures var (h, reply) := AdvancePhase(g, caller, now).value;
      && reply == TurnEnded(h.currentTurn, g.turnNumber + 2, Draw)
      && reply.newTurnNumber == h.turnNumber + 1
  {
    EndPhaseHandsTurnOver(g, caller, now);
  }

  /** The reply of any other call reads `previousPhase` from the re-read room, so it
      names the phase just entered, not the one left. */
  lemma PhaseAdvancedReplyRepeatsNewPhase(g: Game, caller: UserId, now: int)
    requires Consistent(g) && g.phase != End
    requires AdvancePhase(g, caller, now).Ok?
    ensures var (h, reply) := AdvancePhase(g, caller, now).value;
      && reply == PhaseAdvanced(h.phase, h.phase, g.turnNumber)
      && reply.previousPhase != g.phase
  {
  }
}
