# Match engine of a card-battle game, in Dafny

This project models the match engine of a two-player card game whose backend runs on
Convex (`convex/game.ts`):

- **Matchmaking queue.** A player queues with a deck. Queueing is refused while the player holds a `waiting` or `matched` entry or sits in an active game. A player can cancel their entry. An internal sweep deletes stale entries; the cron file schedules only matchmaking (every 30 seconds), and its hourly entry for the sweep is commented out, so nothing calls the sweep as the code stands.
- **Match factory.** It pairs the two oldest waiting entries. It expands each deck's `(cardId, quantity)` entries into a flat list, shuffles the list with Fisher–Yates, deals a five-card hand, and creates the game room. Both queue entries are then marked `matched`.
- **Turn and phase machine.** The phases run draw → standby → main1 → battle → main2 → end. The end phase hands the turn to the other player. Entering the draw phase draws one card, or ends the game on deck-out.
- **Summon resolver.** It handles a normal summon or a set of a monster from the hand. It checks the seat, turn, phase, hand, card kind, tribute count by level, the once-per-turn rule, the zone and the tributes. It then writes one patch.

Layout:

| file | module | contents |
|---|---|---|
| `types.dfy` | `Types` | records: queue entry, card, deck entry, zones, player state, log entry, game room |
| `deck.dfy` | `Deck` | deck expansion, Fisher–Yates shuffle, opening draw |
| `queue.dfy` | `Queue` | open-entry lookup, active-game lookup, the oldest two waiting entries, the stale-entry sweep |
| `factory.dfy` | `Factory` | empty and initial player records, the initial game room |
| `turns.dfy` | `Turns` | phase order, draw, phase-entry processing, advancing |
| `summon.dfy` | `Summon` | summon checks, the new player record, the resolver |
| `store.dfy` | `Store` | `class Database`: the queue table and the game-room table, with the mutations as methods |
| `scenario.dfy` | `Scenario` | properties over several calls |

Each operation's form follows the source:

- **Database writes.** The source's inserts, patches and deletes are methods of `Store.Database`. They update the `queue` sequence and the `games` map, and keep the invariant `Valid()`: ids stay below the counters, no user has two waiting-or-matched queue entries, and every stored room seats two different users and is `Consistent` (`deckSize` is the length of `deck`, and there are five monster zones).
- **Loops.** Expanding a deck (nested loops), shuffling (an in-place descending swap loop over an array), the sweep (two deletion loops with a counter) and the tribute check are methods with loops. Each is proved equal to a function.
- **Pure steps.** Values built with spreads, `filter` and `map` are functions: the draw, the phase patches, and the summon's new player record.

Platform services become parameters:

- the time (`Date.now()`) is `now`;
- the authenticated user is `caller` or `user`;
- `Math.random()` at step `i` of the shuffle is `roll(i) % (i + 1)`, for a caller-supplied `roll`.

A mutation that throws rolls back in Convex. Here it returns `Err` with the same message and changes nothing.

## Model

| member | source | states |
|---|---|---|
| Types.SeatOf | convex/game.ts:393-399 | the caller's seat is player1 when their id is player1's, otherwise player2 when it is player2's; none exactly when they hold neither seat |
| Deck.Copies | convex/game.ts:195-197 | the inner loop pushes `quantity` copies of the card, none when the quantity is not positive |
| Deck.CopiesCount | convex/game.ts:195-197 | the copies hold the card exactly `quantity` times and no other card |
| Deck.ExpandedCount | convex/game.ts:192-205 | the expanded list holds every card id exactly as many times as its deck entries ask in total |
| Deck.ExpandedLength | convex/game.ts:192-205 | the expanded list is as long as the sum of the positive quantities |
| Deck.ExpandDeck | convex/game.ts:192-205 | the nested push loops build exactly the expanded list |
| Deck.SwapPermutes | convex/game.ts:65 | swapping two positions keeps the multiset of cards |
| Deck.ShuffleDown | convex/game.ts:63-66 | the descending swap loop from position `i` down to 1 keeps the length |
| Deck.ShuffleDownPermutes | convex/game.ts:61-68 | whatever the random draws, the shuffle only rearranges the list (same multiset) |
| Deck.Shuffle | convex/game.ts:61-68 | the in-place array loop yields the permutation the draws select, with the input's length and multiset |
| Deck.DrawCards | convex/game.ts:70-85 | refused with "Not enough cards in deck to draw N" exactly when the list is shorter than N; otherwise `count` cards are drawn, drawn ++ remaining is the shuffled list, and together they are a permutation of the input |
| Deck.OpeningDealKeepsEveryCard | convex/game.ts:192-227 | the five-card hand and the rest of the deck hold each card id exactly as often as the deck entries ask, and the rest holds all but five cards |
| Queue.FirstOpenFrom | convex/game.ts:103-112 | the first waiting-or-matched entry of the user; none exactly when the user has none |
| Queue.InActiveGameEitherSeat | convex/game.ts:619-628 | a user is in an active game exactly when they hold seat 1 or seat 2 of one |
| Queue.OldestWaitingFrom | convex/game.ts:165-170 | the waiting entry that comes first in `joinedAt` order, ties by creation order; none exactly when there is none |
| Queue.OldestTwoWaiting | convex/game.ts:165-179 | the pair is two distinct waiting entries: the oldest, and the oldest among the rest |
| Queue.NoPairMeansFewerThanTwo | convex/game.ts:174-177 | no pair is formed exactly when fewer than two entries are waiting |
| Queue.DropMatchedAppend | convex/game.ts:608-644 | the matched-entry pass distributes over concatenation |
| Queue.TwoPassesAreOneSweep | convex/game.ts:587-644 | the waiting pass followed by the matched pass deletes exactly the stale entries, in one sweep |
| Queue.SurvivorsAreTheFreshEntries | convex/game.ts:578-650 | an entry survives exactly when it is not stale: a waiting entry older than 30 minutes, or a matched entry older than 10 minutes whose user is in no active game; survivors plus deleted entries are all entries |
| Queue.SurvivorsKeepOneOpenPerUser | convex/game.ts:578-650 | the sweep only deletes entries, so a queue with at most one waiting-or-matched entry per user keeps that property |
| Queue.CancelLeavesNoOpenEntry | convex/game.ts:533-576 | with at most one open entry per user, deleting the user's first open entry leaves none, so the duplicate check of `queueForMatch` no longer refuses them |
| Queue.PlanCleanup | convex/game.ts:587-649 | the two deletion loops keep exactly the fresh entries, and the counter is the number deleted |
| Factory.InitialPlayerState | convex/game.ts:26-38 | a starting record: the dealt hand and deck, `deckSize` equal to the deck's length, 8000 life points, five empty monster zones, empty graveyard, banished pile and extra deck, no summon yet |
| Factory.InitialGame | convex/game.ts:211-255 | the new room is consistent and active, has the paired users and decks, is on player1's turn 1 in the draw phase, and has one `gameStart` log entry |
| Turns.PhaseIndex | convex/game.ts:407-415 | each phase's position in the fixed order |
| Turns.NextPhase | convex/game.ts:460 | the next phase is one position further in the order, and never `draw` |
| Turns.PerformDraw | convex/game.ts:265-297 | deck-out exactly when `deckSize` is not positive, naming the opponent winner; otherwise the top card moves to the end of the hand, hand ++ deck is unchanged, and `deckSize` is the new deck's length |
| Turns.DrawOnGame | convex/game.ts:306-365 | on deck-out the room is finished, the opponent wins, and the record at the opponent's key gets 0 life points; otherwise only the drawer's hand, deck and `deckSize` change, the opponent's record is untouched, and one `draw` entry without a card id is logged |
| Turns.DeckOutZeroesTheWinner | convex/game.ts:322-332 | on deck-out the player given 0 life points is the winner, and the player who could not draw keeps theirs |
| Turns.ProcessPhaseEntry | convex/game.ts:40-59 | a draw happens exactly when the phase is `draw` and it is not player1's turn 1; otherwise the room is unchanged |
| Turns.AdvanceCheck | convex/game.ts:388-405 | accepted exactly in an active room, by a seated caller, on their turn; refused with "Game is not active", then "You are not a player in this game", then "It is not your turn" |
| Turns.EndTurnPatch | convex/game.ts:421-444 | from `end`: the other player's turn, turn number plus one, the `draw` phase, that player's summon flag cleared, one `endTurn` entry, nothing else changed |
| Turns.PhasePatch | convex/game.ts:460-474 | from any other phase: the next phase and one `advancePhase` entry |
| Turns.AdvancePhase | convex/game.ts:384-487 | refusals exactly when the check fails, with its message; consistency and player ids kept; from a non-end phase: the next phase, same turn and turn number, untouched player records, one log entry; from `end`: the end-turn patch followed by phase-entry processing for the other player |
| Turns.EndPhaseHandsTurnOver | convex/game.ts:421-456 | from `end`: the other player, turn number plus one, `draw` phase, summon flag cleared, `endTurn` logged; then that player draws their top card with a `draw` entry, or on deck-out the room is finished with the ending player as winner |
| Turns.TurnEndedReplyIsOneTooFar | convex/game.ts:446-455 | the `turnEnded` reply reports a turn number two past the one the call started from |
| Turns.PhaseAdvancedReplyRepeatsNewPhase | convex/game.ts:476-486 | the `phaseAdvanced` reply's `previousPhase` is the phase just entered |
| Summon.FirstEmptyFrom | convex/game.ts:745-746 | the first empty monster zone, or -1 exactly when every zone is occupied |
| Summon.RemoveAll | convex/game.ts:771 | no copy of the card is left in the hand, and every other card keeps its count |
| Summon.RemoveAllAppend | convex/game.ts:771 | the filter keeps the other cards in their order: filtering a hand split in two gives the two filtered parts joined |
| Summon.SummonCheck | convex/game.ts:680-759 | accepted exactly when the room is active, the caller is seated and on turn, the phase is main1 or main2, the card is in hand and is a `normal` card, the tribute count equals the one its level requires (2 from level 7, 1 from level 5, else 0), no summon was made this turn, there are five zones, the chosen zone is in 0..4, and every tribute id is on the field (the messages are stated by `Summon.SummonRefusals`) |
| Summon.SummonRefusals | convex/game.ts:680-759 | each refusal of the summon checks has its message, given only when every earlier check passed: not active, not a player, not your turn, not a main phase, card not in hand, card not found, not a normal card, wrong tribute count, already summoned this turn, invalid zones, no available zone, tribute not on field |
| Summon.SummonedState | convex/game.ts:761-800 | all copies of the card leave the hand; the chosen zone holds the card in attack or face-down-defense position unless its own id was tributed; every other zone holding a tributed id is emptied; the tribute ids are appended to the graveyard; the summon flag is set; nothing else changes |
| Summon.ResolveSummon | convex/game.ts:653-828 | the summon succeeds exactly when the check accepts it; a refusal returns the room unchanged with the check's message; a success stores the new player record and one `normalSummon`/`set` entry to `monsterZone{i+1}`, keeps the room consistent, and replies with its message |
| Summon.OncePerTurn | convex/game.ts:731-736 | after an accepted summon no other summon or set by the same player is accepted in the same turn |
| Summon.FullFieldRefusesTributeSummon | convex/game.ts:745-749 | with five occupied zones and no zone named, a summon is refused even when its tributes would free a zone |
| Summon.RepeatedTributeCountsTwice | convex/game.ts:753-759 | the same monster named twice as tribute passes against one copy; both ids reach the graveyard and only one zone is emptied |
| Summon.OccupiedZoneIsOverwritten | convex/game.ts:745-773 | a named occupied zone is overwritten, and the monster that was there does not reach the graveyard |
| Summon.SummonedCopyTributedAway | convex/game.ts:786-789 | a monster whose own card id is among the tributes is emptied from the zone it was just placed in |
| Store.Database.QueueForMatch | convex/game.ts:88-157 | refused with "Already in queue or matched", then "data inconsistency: user in multiple active games", then "already in an active game"; otherwise exactly one `waiting` entry for the user is appended and its id returned, nothing else changing |
| Store.Database.CancelQueue | convex/game.ts:533-576 | false with no change when the user has no waiting or matched entry; otherwise that first entry is deleted, whatever its age, and true is returned; afterwards the user has no waiting or matched entry |
| Store.Database.CleanupOldQueueEntries | convex/game.ts:581-651 | the queue keeps exactly the fresh entries and the count of deleted entries is returned |
| Store.Database.CreateGameFromQueue | convex/game.ts:160-263 | no change with fewer than two waiting entries; a deck of fewer than five cards refuses with "Not enough cards in deck to draw 5" and no change; otherwise the room built from the two oldest entries and their dealt decks is inserted under a new id, and both entries become `matched` |
| Store.Database.DealOpening | convex/game.ts:183-209 | a deck's entries are expanded, shuffled and split into the first five cards and the rest; refused, with "Not enough cards in deck to draw 5", exactly when the deck holds fewer than five cards |
| Store.Database.MarkMatched | convex/game.ts:257-259 | the two paired waiting entries become `matched` and nothing else changes |
| Store.Database.DrawCard | convex/game.ts:306-365 | "Game not found" or "Game not active" with no change; otherwise the draw's room is stored and its reply returned |
| Store.Database.ProcessPhaseEntry | convex/game.ts:40-59 | the stored room becomes the one phase-entry processing yields, the draw going through `drawCard` |
| Store.Database.AdvancePhase | convex/game.ts:372-488 | "Game not found" with no change; otherwise the stored room and the reply are those of the advance, and a refusal changes nothing |
| Store.Database.NormalSummonOrSet | convex/game.ts:653-828 | "Game not found" throws; a refusal is returned with no change; an accepted summon stores the summoned room and replies "Monster Normal Summoned" or "Monster Set" by the action |
| Scenario.AdvanceRun | convex/game.ts:372-488 | repeated advances keep the room consistent |
| Scenario.AdvancesWithinATurn | convex/game.ts:407-474 | within a turn each accepted call moves one phase further, with the same turn, status and player records |
| Scenario.OwnerAdvances | convex/game.ts:460-474 | before `end`, a call by the player on turn is accepted and moves the room one phase on, keeping turn, status, seats and player records |
| Scenario.OneFullTurn | convex/game.ts:372-488 | six calls from the draw phase hand the turn over: the other player's draw phase of the next turn, with their top card drawn and the summon flag cleared, or a finished room on deck-out |
| Scenario.PlayerTwoDrawsFirst | convex/game.ts:40-59 | in a new room player1 draws nothing on turn 1, and player2 opens turn 2 with the top card of their deck added to their hand |
| Scenario.MatchTwoPlayers | convex/game.ts:88-263 | two users with different decks queue and matchmaking runs: one room with the earlier user as player1, five-card hands, every remaining card of each deck in its deck pile, and both entries matched |

## Left out

- Authentication: the `Unauthenticated`/`Not authenticated` errors are left out. The caller's id is a parameter.
- Time and randomness: `Date.now()` is a parameter. `Math.random()` is a function `roll` supplied by the caller.
- The Convex runtime: transactions, isolation, index queries, the cron schedule (convex/crons.ts schedules `createGameFromQueue` and leaves the sweep unscheduled; the model treats both as operations anyone may call), `console` logging, and concurrency between cron runs and client mutations. Each operation is one atomic step. The `by_user` index returns the entry created first.
- The query handlers `getMyQueueEntry` and `getMyActiveGame`: they only read.
- The "Invalid current phase" refusal of `advancePhase`: the phase is an enumeration, so it cannot be outside the order.
- Non-integer numbers: a card's `level`, a deck entry's `quantity` and `targetMonsterIndex` are integers here, while the source accepts any JavaScript number.
- Rooms whose `deckSize` differs from the length of `deck`. The factory never creates them, and `Valid()` excludes them. For such a room the source could push `undefined` onto the hand; `Turns.PerformDraw` requires `DrawDefined` instead.
- Turns.AdvancePhase: stated only for rooms that satisfy `Consistent`, because the draw inside it needs `DrawDefined`.
- `emptyPlayerState`'s placeholder `deckSize` of 40 appears in `Factory.EmptyPlayerState`. It is always overwritten before a room is stored.
- Card fields other than name, level and kind (`attack`, `defense`, `rarity`). convex/pack.ts, convex/user.ts, convex/deck.ts, convex/cards.ts, the seed scripts and the UI components are not part of this model.

## Divergences

The model follows the code as written. Where the code departs from the rules its comments and names describe, a lemma states the behaviour:

- **Deck-out zeroes the winner.** The patch zeroes the life points of the player who did not draw, who is also the winner. See `Turns.DeckOutZeroesTheWinner`.
- **`drawCard` checks neither the caller nor the phase**, although its doc-comment says it validates the turn and the draw phase. `Store.Database.DrawCard` states exactly the checks it makes: the room exists and is active.
- **The first-turn guard in `processPhaseEntry` only ever fires for a room whose turn number was 0 before an end-turn call.** The factory starts rooms at turn 1 in the draw phase without calling it, so player1 never draws on turn 1 (`Scenario.PlayerTwoDrawsFirst`).
- **The `advancePhase` replies are off.** `newTurnNumber` re-reads the already incremented turn and adds one (`Turns.TurnEndedReplyIsOneTooFar`). `previousPhase` reports the new phase (`Turns.PhaseAdvancedReplyRepeatsNewPhase`).
- **A summon removes every copy of the card from the hand**, not one (`Summon.RemoveAll`, `Summon.SummonedState`).
- **Tributes are checked by presence only.** A repeated id passes against a single copy (`Summon.RepeatedTributeCountsTwice`). Every zone holding a tributed id is emptied after placement, including the new monster's own zone when its id is among the tributes (`Summon.SummonedCopyTributedAway`).
- **An occupied zone named as the target is overwritten**, and the old monster does not reach the graveyard (`Summon.OccupiedZoneIsOverwritten`).
- **The zone is chosen before tributes free one**, so a full field refuses even a legal tribute summon (`Summon.FullFieldRefusesTributeSummon`).
