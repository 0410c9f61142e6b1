/** Normal summon or set of a monster from the hand: the checks (room, seat, turn,
    phase, hand, card kind, tribute count by level, once per turn, zone, tributes on the
    field) and the single patch that follows them. */
module Summon {
  import opened Types

  datatype SummonAction = NormalSummon | SetMonster

  datatype SummonReply = Summoned(message: string) | Refused(reason: string)

  /** Tributes a monster costs: two from level 7, one from level 5, none below. */
  function RequiredTributes(level: int): nat {
    if level >= 7 then 2 else if level >= 5 then 1 else 0
  }

  /** A normal summon is face-up attack; a set is face-down defense. */
  function PositionFor(action: SummonAction): Position {
    if action == NormalSummon then Attack else FaceDownDefense
  }

  /** Some zone holds a monster with this card id. */
  predicate OnField(monsters: seq<Option<MonsterSlot>>, id: CardId) {
    exists j :: 0 <= j < |monsters| && monsters[j].Some? && monsters[j].value.cardId == id
  }

  /** Index of the first empty zone at or after k, or -1 (`findIndex`). */
  function FirstEmptyFrom(monsters: seq<Option<MonsterSlot>>, k: nat): (i: int)
    requires k <= |monsters|
    ensures i == -1 <==> forall j :: k <= j < |monsters| ==> monsters[j].Some?
    ensures i != -1 ==> k <= i < |monsters| && monsters[i].None?
    ensures i != -1 ==> forall j :: k <= j < i ==> monsters[j].Some?
    decreases |monsters| - k
  {
    if k == |monsters| then -1
    else if monsters[k].None? then k
    else FirstEmptyFrom(monsters, k + 1)
  }

  /** The zone asked for, or else the first empty one (`targetMonsterIndex ?? findIndex`). */
  function ChosenZone(monsters: seq<Option<MonsterSlot>>, target: Option<int>): int {
    if target.Some? then target.value else FirstEmptyFrom(monsters, 0)
  }

  /** The hand without any copy of `c` (`filter(id => id !== c)`). */
  function RemoveAll(hand: seq<CardId>, c: CardId): (r: seq<CardId>)
    ensures c !in r
    ensures forall x :: x != c ==> multiset(r)[x] == multiset(hand)[x]
    ensures |r| == |hand| - multiset(hand)[c]
  {
    if hand == [] then []
    else
      var rest := RemoveAll(hand[..|hand| - 1], c);
      var last := hand[|hand| - 1];
      assert hand == hand[..|hand| - 1] + [last];
      if last == c then rest else rest + [last]
  }

  /** Removing a card keeps the other cards in their order: the filter of a hand split
      in two is the two filtered parts joined. */
  lemma {:induction false} RemoveAllAppend(a: seq<CardId>, b: seq<CardId>, c: CardId)
    ensures RemoveAll(a + b, c) == RemoveAll(a, c) + RemoveAll(b, c)
    decreases |b|
  {
    if b == [] {
      assert a + b == a;
    } else {
      assert (a + b)[..|a + b| - 1] == a + b[..|b| - 1];
      RemoveAllAppend(a, b[..|b| - 1], c);
    }
  }

  /** Every zone whose monster's card id is among the tributes is emptied. */
  function ClearTributed(monsters: seq<Option<MonsterSlot>>, tributes: seq<CardId>): (r: seq<Option<MonsterSlot>>)
    ensures |r| == |monsters|
  {
    seq(|monsters|, j requires 0 <= j < |monsters| =>
      if monsters[j].Some? && monsters[j].value.cardId in tributes then None else monsters[j])
  }

  datatype Plan = Plan(player: PlayerSlot, card: Card, zone: nat)

  function TributeCountReason(level: int, count: nat): string {
    var required := RequiredTributes(level);
    if required > 0 then
      "Level " + NatToString(level as nat) + " requires exactly " + NatToString(required) + " tribute(s)"
    else "No tributes needed for this monster"
  }

  /** The room is active and the caller holds the seat whose turn it is. */
  predicate CallerOnTurn(g: Game, caller: UserId) {
    g.status == Active && SeatOf(g, caller).Some? && g.currentTurn == SeatOf(g, caller).value
  }

  /** The checks in the order the mutation makes them, each with its refusal message.
      On success: the caller's seat, the card, and the zone the monster goes to. */
  function SummonCheck(
    g: Game, caller: UserId, cardId: CardId, tributes: seq<CardId>,
    target: Option<int>, catalog: map<CardId, Card>): (r: Result<Plan>)
    ensures r.Ok? <==>
      && g.status == Active
      && SeatOf(g, caller).Some?
      && g.currentTurn == SeatOf(g, caller).value
      && (g.phase == Main1 || g.phase == Main2)
      && cardId in StateOf(g, g.currentTurn).hand
      && cardId in catalog && catalog[cardId].cardType == Normal
      && |tributes| == RequiredTributes(catalog[cardId].level)
      && !StateOf(g, g.currentTurn).hasNormalSummonedThisTurn
      && |StateOf(g, g.currentTurn).zones.monsters| == 5
      && 0 <= ChosenZone(StateOf(g, g.currentTurn).zones.monsters, target) <= 4
      && forall t :: t in tributes ==> OnField(StateOf(g, g.currentTurn).zones.monsters, t)
    ensures r.Ok? ==>
      r.value == Plan(g.currentTurn, catalog[cardId], ChosenZone(StateOf(g, g.currentTurn).zones.monsters, target))
  {
    if g.status != Active then Err("Game is not active")
    else if SeatOf(g, caller).None? then Err("Not a player in this game")
    else
      var p := SeatOf(g, caller).value;
      var state := StateOf(g, p);
      if g.currentTurn != p then Err("Not your turn")
      else if g.phase != Main1 && g.phase != Main2 then Err("Can only summon in Main Phase 1 or 2")
      else if cardId !in state.hand then Err("Card not in hand")
      else if cardId !in catalog then Err("Card not found")
      else
        var card := catalog[cardId];
        if card.cardType != Normal then Err("Can only normal summon/set monsters")
        else if |tributes| != RequiredTributes(card.level) then Err(TributeCountReason(card.level, |tributes|))
        else if state.hasNormalSummonedThisTurn then Err("Already Normal Summoned or Set this turn")
        else if |state.zones.monsters| != 5 then Err("Invalid monster zones state")
        else
          var zone := ChosenZone(state.zones.monsters, target);
          if zone == -1 || zone < 0 || zone > 4 then Err("No available monster zone")
          else if exists t :: t in tributes && !OnField(state.zones.monsters, t) then
            Err("Tribute monster not on field")
          else Ok(Plan(p, card, zone))
  }

  /** Each refusal of the summon checks carries its own message, in the order the
      checks run: a later message is given only when every earlier check passed. */
  lemma SummonRefusals(
    g: Game, caller: UserId, cardId: CardId, tributes: seq<CardId>,
    target: Option<int>, catalog: map<CardId, Card>)
    ensures var r := SummonCheck(g, caller, cardId, tributes, target, catalog);
      && (g.status != Active ==> r == Err("Game is not active"))
      && (g.status == Active && SeatOf(g, caller).None? ==> r == Err("Not a player in this game"))
      && (g.status == Active && SeatOf(g, caller).Some? && g.currentTurn != SeatOf(g, caller).value ==>
          r == Err("Not your turn"))
      && (CallerOnTurn(g, caller) && g.phase != Main1 && g.phase != Main2 ==>
          r == Err("Can only summon in Main Phase 1 or 2"))
      && (CallerOnTurn(g, caller) && (g.phase == Main1 || g.phase == Main2) ==>
          var ps := StateOf(g, g.currentTurn);
          && (cardId !in ps.hand ==> r == Err("Card not in hand"))
          && (cardId in ps.hand && cardId !in catalog ==> r == Err("Card not found"))
          && (cardId in ps.hand && cardId in catalog ==>
                var card := catalog[cardId];
                && (card.cardType != Normal ==> r == Err("Can only normal summon/set monsters"))
                && (card.cardType == Normal && |tributes| != RequiredTributes(card.level) ==>
                      r == Err(TributeCountReason(card.level, |tributes|)))
                && (card.cardType == Normal && |tributes| == RequiredTributes(card.level) ==>
                      && (ps.hasNormalSummonedThisTurn ==> r == Err("Already Normal Summoned or Set this turn"))
                      && (!ps.hasNormalSummonedThisTurn && |ps.zones.monsters| != 5 ==>
                            r == Err("Invalid monster zones state"))
                      && (!ps.hasNormalSummonedThisTurn && |ps.zones.monsters| == 5 ==>
                            var zone := ChosenZone(ps.zones.monsters, target);
                            && (!(0 <= zone <= 4) ==> r == Err("No available monster zone"))
                            && (0 <= zone <= 4 && (exists t :: t in tributes && !OnField(ps.zones.monsters, t)) ==>
                                  r == Err("Tribute monster not on field"))))))
  {
  }

  /** The summoning player's record after the patch: every copy of the card gone from
      the hand, the monster in the chosen zone, then every zone holding a tributed card
      id emptied (the chosen one included), the tribute ids appended to the graveyard,
      and the once-per-turn flag set. Nothing else in the record changes. */
  function SummonedState(
    ps: PlayerState, cardId: CardId, action: SummonAction, tributes: seq<CardId>, zone: nat): (ps': PlayerState)
    requires zone < |ps.zones.monsters|
    ensures cardId !in ps'.hand
    ensures forall x :: x != cardId ==> multiset(ps'.hand)[x] == multiset(ps.hand)[x]
    ensures |ps'.zones.monsters| == |ps.zones.monsters|
    ensures ps'.zones.monsters[zone] ==
      if cardId in tributes then None else Some(MonsterSlot(cardId, PositionFor(action)))
    ensures forall j :: 0 <= j < |ps.zones.monsters| && j != zone ==>
      ps'.zones.monsters[j] ==
        if ps.zones.monsters[j].Some? && ps.zones.monsters[j].value.cardId in tributes then None
        else ps.zones.monsters[j]
    ensures ps'.graveyard == ps.graveyard + tributes
    ensures ps'.hasNormalSummonedThisTurn
    ensures ps'.zones.(monsters := ps.zones.monsters) == ps.zones
    ensures ps'.(hand := ps.hand, zones := ps.zones, graveyard := ps.graveyard,
                 hasNormalSummonedThisTurn := ps.hasNormalSummonedThisTurn) == ps
  {
    var placed := ps.zones.monsters[zone := Some(MonsterSlot(cardId, PositionFor(action)))];
    ps.(hand := RemoveAll(ps.hand, cardId),
        zones := ps.zones.(monsters := ClearTributed(placed, tributes)),
        graveyard := ps.graveyard + tributes,
        hasNormalSummonedThisTurn := true)
  }

  function SummonEntry(g: Game, p: PlayerSlot, cardId: CardId, card: Card, action: SummonAction, zone: nat, now: int): LogEntry {
    var name := if card.name == "" then "monster" else card.name;
    LogEntry(
      now, g.turnNumber, p,
      if action == NormalSummon then LogNormalSummon else LogSet,
      Some(cardId), Some("hand"), Some("monsterZone" + NatToString(zone + 1)),
      if action == NormalSummon then "Normal Summoned " + name else "Set " + name)
  }

  /** The room after an accepted summon: the summoning player's record replaced and one
      entry appended to the log. */
  function SummonedGame(g: Game, plan: Plan, cardId: CardId, action: SummonAction, tributes: seq<CardId>, now: int): Game
    requires plan.zone < |StateOf(g, plan.player).zones.monsters|
  {
    WithState(g, plan.player, SummonedState(StateOf(g, plan.player), cardId, action, tributes, plan.zone))
      .(actionsLog := g.actionsLog + [SummonEntry(g, plan.player, cardId, plan.card, action, plan.zone, now)])
  }

  /** The mutation's handler once the room is read: checks, the loop that confirms each
      tribute is on the field, then one new room. A refusal returns the room as it was. */
  method ResolveSummon(
    g: Game, caller: UserId, cardId: CardId, action: SummonAction, tributeCardIds: seq<CardId>,
    targetMonsterIndex: Option<int>, catalog: map<CardId, Card>, now: int)
    returns (h: Game, reply: SummonReply)
    ensures reply.Summoned? <==> SummonCheck(g, caller, cardId, tributeCardIds, targetMonsterIndex, catalog).Ok?
    ensures reply.Refused? ==>
      h == g && reply.reason == SummonCheck(g, caller, cardId, tributeCardIds, targetMonsterIndex, catalog).reason
    ensures reply.Summoned? ==>
      var plan := SummonCheck(g, caller, cardId, tributeCardIds, targetMonsterIndex, catalog).value;
      && plan.zone < |StateOf(g, plan.player).zones.monsters|
      && h == SummonedGame(g, plan, cardId, action, tributeCardIds, now)
      && reply.message == if action == NormalSummon then "Monster Normal Summoned" else "Monster Set"
    ensures Consistent(g) ==> Consistent(h)
  {
    h := g;
    var check := SummonCheck(g, caller, cardId, tributeCardIds, targetMonsterIndex, catalog);
    if g.status != Active { return g, Refused("Game is not active"); }
    var seat := SeatOf(g, caller);
    if seat.None? { return g, Refused("Not a player in this game"); }
    var p := seat.value;
    var state := StateOf(g, p);
    if g.currentTurn != p { return g, Refused("Not your turn"); }
    if g.phase != Main1 && g.phase != Main2 { return g, Refused("Can only summon in Main Phase 1 or 2"); }
    if cardId !in state.hand { return g, Refused("Card not in hand"); }
    if cardId !in catalog { return g, Refused("Card not found"); }
    var card := catalog[cardId];
    if card.cardType != Normal { return g, Refused("Can only normal summon/set monsters"); }
    var requiredTributes := RequiredTributes(card.level);
    if |tributeCardIds| != requiredTributes {
      return g, Refused(TributeCountReason(card.level, |tributeCardIds|));
    }
    if state.hasNormalSummonedThisTurn { return g, Refused("Already Normal Summoned or Set this turn"); }
    var monsters := state.zones.monsters;
    if |monsters| != 5 { return g, Refused("Invalid monster zones state"); }
    var zoneIndex := ChosenZone(monsters, targetMonsterIndex);
    if zoneIndex == -1 || zoneIndex < 0 || zoneIndex > 4 { return g, Refused("No available monster zone"); }

    // validates tributes
    var tributedCardIds: seq<CardId> := [];
    for k := 0 to |tributeCardIds|
      invariant tributedCardIds == tributeCardIds[..k]
      invariant forall m :: 0 <= m < k ==> OnField(monsters, tributeCardIds[m])
    {
      if !OnField(monsters, tributeCardIds[k]) {
        return g, Refused("Tribute monster not on field");
      }
      tributedCardIds := tributedCardIds + [tributeCardIds[k]];
    }
    assert tributeCardIds[..|tributeCardIds|] == tributeCardIds;
    assert check == Ok(Plan(p, card, zoneIndex));

    // new state, built as the source spreads it
    var newMonster := MonsterSlot(cardId, PositionFor(action));
    var newHand := RemoveAll(state.hand, cardId);
    var newMonsters := monsters[zoneIndex := Some(newMonster)];
    var newZones := state.zones.(monsters := newMonsters);
    var updatedState := state.(hand := newHand, zones := newZones, graveyard := state.graveyard);
    if |tributedCardIds| > 0 {
      updatedState := updatedState.(
        zones := newZones.(monsters := ClearTributed(newMonsters, tributeCardIds)),
        graveyard := state.graveyard + tributedCardIds);
    } else {
      assert ClearTributed(newMonsters, tributeCardIds) == newMonsters;
    }
    updatedState := updatedState.(hasNormalSummonedThisTurn := true);
    assert updatedState == SummonedState(state, cardId, action, tributeCardIds, zoneIndex);
    var logEntry := SummonEntry(g, p, cardId, card, action, zoneIndex, now);
    h := WithState(g, p, updatedState).(actionsLog := g.actionsLog + [logEntry]);
    reply := Summoned(if action == NormalSummon then "Monster Normal Summoned" else "Monster Set");
  }

  // ---- consequences of the rules as written ----

  /** Once a summon is accepted, no second normal summon or set by the same player is
      accepted in that room until the flag is cleared, whatever card, tributes or zone. */
  lemma OncePerTurn(
    g: Game, caller: UserId, cardId: CardId, action: SummonAction, tributes: seq<CardId>,
    target: Option<int>, catalog: map<CardId, Card>, now: int,
    cardId2: CardId, tributes2: seq<CardId>, target2: Option<int>)
    requires SummonCheck(g, caller, cardId, tributes, target, catalog).Ok?
    ensures var plan := SummonCheck(g, caller, cardId, tributes, target, catalog).value;
      SummonCheck(SummonedGame(g, plan, cardId, action, tributes, now), caller, cardId2, tributes2, target2, catalog).Err?
  {
    var plan := SummonCheck(g, caller, cardId, tributes, target, catalog).value;
    var h := SummonedGame(g, plan, cardId, action, tributes, now);
    assert SeatOf(h, caller) == SeatOf(g, caller);
    assert h.currentTurn == g.currentTurn == plan.player;
    assert StateOf(h, plan.player).hasNormalSummonedThisTurn;
  }

  /** The zone is chosen before any tribute frees one: with all five zones occupied and
      no zone named, even a summon whose tributes are all on the field is refused. */
  lemma FullFieldRefusesTributeSummon(
    g: Game, caller: UserId, cardId: CardId, tributes: seq<CardId>, catalog: map<CardId, Card>)
    requires SeatOf(g, caller).Some?
    requires var ms := StateOf(g, SeatOf(g, caller).value).zones.monsters;
      |ms| == 5 && forall j :: 0 <= j < 5 ==> ms[j].Some?
    ensures SummonCheck(g, caller, cardId, tributes, None, catalog).Err?
  {
    var ms := StateOf(g, SeatOf(g, caller).value).zones.monsters;
    assert FirstEmptyFrom(ms, 0) == -1;
  }

  /** Tributes are validated only by presence: naming the same monster twice passes
      against a single copy on the field, both ids reach the graveyard, and only one
      zone is emptied. */
  lemma RepeatedTributeCountsTwice(
    ps: PlayerState, cardId: CardId, action: SummonAction, t: CardId, k: nat, zone: nat)
    requires |ps.zones.monsters| == 5 && k < 5 && zone < 5 && k != zone
    requires ps.zones.monsters[k].Some? && ps.zones.monsters[k].value.cardId == t && cardId != t
    requires forall j :: 0 <= j < 5 && j != k && ps.zones.monsters[j].Some? ==> ps.zones.monsters[j].value.cardId != t
    ensures forall x :: x in [t, t] ==> OnField(ps.zones.monsters, x)
    ensures var ps' := SummonedState(ps, cardId, action, [t, t], zone);
      && ps'.graveyard == ps.graveyard + [t, t]
      && ps'.zones.monsters[k] == None
      && ps'.zones.monsters[zone].Some?
      && forall j :: 0 <= j < 5 && j != k && j != zone ==> ps'.zones.monsters[j] == ps.zones.monsters[j]
  {
    var ps' := SummonedState(ps, cardId, action, [t, t], zone);
    forall j | 0 <= j < 5 && j != k && j != zone
      ensures ps'.zones.monsters[j] == ps.zones.monsters[j]
    {
      assert ps.zones.monsters[j].Some? ==> ps.zones.monsters[j].value.cardId !in [t, t];
    }
  }

  /** A named zone that is occupied is overwritten: without tributes, its monster leaves
      the field and does not reach the graveyard. */
  lemma OccupiedZoneIsOverwritten(ps: PlayerState, cardId: CardId, action: SummonAction, zone: nat)
    requires zone < |ps.zones.monsters| && ps.zones.monsters[zone].Some?
    ensures var ps' := SummonedState(ps, cardId, action, [], zone);
      && ps'.zones.monsters[zone] == Some(MonsterSlot(cardId, PositionFor(action)))
      && ps'.graveyard == ps.graveyard
  {
  }

  /** A monster summoned by tributing another copy of the same card is emptied from its
      own zone too, because the tribute pass runs after placement. */
  lemma SummonedCopyTributedAway(ps: PlayerState, cardId: CardId, action: SummonAction, tributes: seq<CardId>, zone: nat)
    requires zone < |ps.zones.monsters| && cardId in tributes
    ensures SummonedState(ps, cardId, action, tributes, zone).zones.monsters[zone] == None
  {
  }
}
