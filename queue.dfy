/** The matchmaking queue's read side: which entry a user already holds, whether a user
    is in an active game, which two waiting entries are the oldest, and which entries
    the cleanup sweep removes (an internal mutation the cron file leaves unscheduled). The table is a sequence in creation order. */
module Queue {
  import opened Types

  const MaxWaitingAgeMs: int := 30 * 60 * 1000
  const MaxMatchedAgeMs: int := 10 * 60 * 1000

  /** Entries that block a new enqueue and that a cancel removes. */
  predicate IsOpen(e: QueueEntry) {
    e.status == Waiting || e.status == Matched
  }

  predicate OpenFor(e: QueueEntry, user: UserId) {
    e.userId == user && IsOpen(e)
  }

  /** Position of the first open entry of `user` at or after position k. */
  function FirstOpenFrom(q: seq<QueueEntry>, user: UserId, k: nat): (r: Option<nat>)
    requires k <= |q|
    ensures r.Some? ==> k <= r.value < |q| && OpenFor(q[r.value], user)
    ensures r.Some? ==> forall m :: k <= m < r.value ==> !OpenFor(q[m], user)
    ensures r.None? <==> forall m :: k <= m < |q| ==> !OpenFor(q[m], user)
    decreases |q| - k
  {
    if k == |q| then None
    else if OpenFor(q[k], user) then Some(k)
    else FirstOpenFrom(q, user, k + 1)
  }

  /** The user's waiting-or-matched entry that a `by_user` lookup returns first. */
  function FirstOpenEntry(q: seq<QueueEntry>, user: UserId): Option<nat> {
    FirstOpenFrom(q, user, 0)
  }

  /** Some active game has `user` in seat `p`. */
  predicate ActiveAs(games: map<GameId, Game>, user: UserId, p: PlayerSlot) {
    exists id :: id in games && games[id].status == Active && PlayerId(games[id], p) == user
  }

  /** Some active game has `user` in either seat. */
  predicate InActiveGame(games: map<GameId, Game>, user: UserId) {
    exists id :: id in games && games[id].status == Active
      && (games[id].player1Id == user || games[id].player2Id == user)
  }

  lemma InActiveGameEitherSeat(games: map<GameId, Game>, user: UserId)
    ensures InActiveGame(games, user) <==> ActiveAs(games, user, Player1) || ActiveAs(games, user, Player2)
  {
    if InActiveGame(games, user) {
      var id :| id in games && games[id].status == Active
        && (games[id].player1Id == user || games[id].player2Id == user);
      assert PlayerId(games[id], Player1) == user || PlayerId(games[id], Player2) == user;
    }
    if ActiveAs(games, user, Player1) {
      var id :| id in games && games[id].status == Active && PlayerId(games[id], Player1) == user;
      assert games[id].player1Id == user;
    }
    if ActiveAs(games, user, Player2) {
      var id :| id in games && games[id].status == Active && PlayerId(games[id], Player2) == user;
      assert games[id].player2Id == user;
    }
  }

  /** Why an enqueue is refused, in the order the mutation checks: an open entry, then
      an active game in both seats (an inconsistency), then an active game in one. */
  function EnqueueRefusal(q: seq<QueueEntry>, games: map<GameId, Game>, user: UserId): Option<string> {
    if FirstOpenEntry(q, user).Some? then Some("Already in queue or matched")
    else if ActiveAs(games, user, Player1) && ActiveAs(games, user, Player2) then
      Some("data inconsistency: user in multiple active games")
    else if ActiveAs(games, user, Player1) || ActiveAs(games, user, Player2) then
      Some("already in an active game")
    else None
  }

  // ---- the two oldest waiting entries ----

  predicate Candidate(q: seq<QueueEntry>, m: int, skip: Option<nat>)
    requires 0 <= m < |q|
  {
    q[m].status == Waiting && Some(m) != skip
  }

  /** Position `a` comes no later than position `b` in the `by_status_joined` index:
      earlier `joinedAt`, then earlier creation. */
  predicate NoLater(q: seq<QueueEntry>, a: nat, b: nat)
    requires a < |q| && b < |q|
  {
    q[a].joinedAt < q[b].joinedAt || (q[a].joinedAt == q[b].joinedAt && a <= b)
  }

  /** Position of the first waiting entry in index order among positions k.., leaving
      out `skip`. */
  function OldestWaitingFrom(q: seq<QueueEntry>, k: nat, skip: Option<nat>): (r: Option<nat>)
    requires k <= |q|
    ensures r.Some? ==> k <= r.value < |q| && Candidate(q, r.value, skip)
    ensures r.Some? ==> forall m :: k <= m < |q| && Candidate(q, m, skip) ==> NoLater(q, r.value, m)
    ensures r.None? <==> forall m :: k <= m < |q| ==> !Candidate(q, m, skip)
    decreases |q| - k
  {
    if k == |q| then None
    else
      var rest := OldestWaitingFrom(q, k + 1, skip);
      if Candidate(q, k, skip) then
        if rest.Some? && q[rest.value].joinedAt < q[k].joinedAt then rest else Some(k)
      else rest
  }

  /** What `take(2)` on the ascending `by_status_joined` index yields when it yields two. */
  function OldestTwoWaiting(q: seq<QueueEntry>): (r: Option<(nat, nat)>)
    ensures r.Some? ==>
      && r.value.0 < |q| && r.value.1 < |q| && r.value.0 != r.value.1
      && q[r.value.0].status == Waiting && q[r.value.1].status == Waiting
      && (forall m :: 0 <= m < |q| && q[m].status == Waiting ==> NoLater(q, r.value.0, m))
      && (forall m :: 0 <= m < |q| && q[m].status == Waiting && m != r.value.0 ==> NoLater(q, r.value.1, m))
  {
    match OldestWaitingFrom(q, 0, None)
    case None => None
    case Some(first) =>
      match OldestWaitingFrom(q, 0, Some(first))
      case None => None
      case Some(second) => Some((first, second))
  }

  /** No pair is formed exactly when the table holds fewer than two waiting entries. */
  lemma NoPairMeansFewerThanTwo(q: seq<QueueEntry>)
    ensures OldestTwoWaiting(q).None? <==>
      forall a, b :: 0 <= a < |q| && 0 <= b < |q| && q[a].status == Waiting && q[b].status == Waiting ==> a == b
  {
    match OldestWaitingFrom(q, 0, None)
    case None =>
      forall m | 0 <= m < |q| ensures q[m].status != Waiting {
        assert !Candidate(q, m, None);
      }
    case Some(first) =>
      match OldestWaitingFrom(q, 0, Some(first))
      case None =>
        forall m | 0 <= m < |q| && q[m].status == Waiting ensures m == first {
          assert !Candidate(q, m, Some(first));
        }
      case Some(second) =>
  }

  // ---- the cleanup sweep ----

  predicate StaleWaiting(e: QueueEntry, now: int) {
    e.status == Waiting && now - e.joinedAt > MaxWaitingAgeMs
  }

  /** A matched entry is removed only when no active game holds its user. */
  predicate StaleMatched(e: QueueEntry, games: map<GameId, Game>, now: int) {
    e.status == Matched && now - e.joinedAt > MaxMatchedAgeMs && !InActiveGame(games, e.userId)
  }

  predicate Stale(e: QueueEntry, games: map<GameId, Game>, now: int) {
    StaleWaiting(e, now) || StaleMatched(e, games, now)
  }

  /** The table once the sweep is over: the entries that are not stale, in order. */
  function Survivors(q: seq<QueueEntry>, games: map<GameId, Game>, now: int): seq<QueueEntry> {
    if q == [] then []
    else
      var last := q[|q| - 1];
      Survivors(q[..|q| - 1], games, now) + (if Stale(last, games, now) then [] else [last])
  }

  function StaleCount(q: seq<QueueEntry>, games: map<GameId, Game>, now: int): nat {
    if q == [] then 0
    else StaleCount(q[..|q| - 1], games, now) + (if Stale(q[|q| - 1], games, now) then 1 else 0)
  }

  /** The first pass: the table without its stale waiting entries. */
  function DropStaleWaiting(q: seq<QueueEntry>, now: int): seq<QueueEntry> {
    if q == [] then []
    else
      var last := q[|q| - 1];
      DropStaleWaiting(q[..|q| - 1], now) + (if StaleWaiting(last, now) then [] else [last])
  }

  /** The second pass: the table without its stale matched entries. */
  function DropStaleMatched(q: seq<QueueEntry>, games: map<GameId, Game>, now: int): seq<QueueEntry> {
    if q == [] then []
    else
      var last := q[|q| - 1];
      DropStaleMatched(q[..|q| - 1], games, now) + (if StaleMatched(last, games, now) then [] else [last])
  }

  lemma {:induction false} DropMatchedAppend(a: seq<QueueEntry>, b: seq<QueueEntry>, games: map<GameId, Game>, now: int)
    ensures DropStaleMatched(a + b, games, now) == DropStaleMatched(a, games, now) + DropStaleMatched(b, games, now)
    decreases |b|
  {
    if b == [] {
      assert a + b == a;
    } else {
      assert (a + b)[..|a + b| - 1] == a + b[..|b| - 1];
      DropMatchedAppend(a, b[..|b| - 1], games, now);
    }
  }

  /** Running the two passes one after the other removes exactly the stale entries. */
  lemma {:induction false} TwoPassesAreOneSweep(q: seq<QueueEntry>, games: map<GameId, Game>, now: int)
    ensures DropStaleMatched(DropStaleWaiting(q, now), games, now) == Survivors(q, games, now)
    decreases |q|
  {
    if q != [] {
      var init, last := q[..|q| - 1], q[|q| - 1];
      TwoPassesAreOneSweep(init, games, now);
      var kept := if StaleWaiting(last, now) then [] else [last];
      DropMatchedAppend(DropStaleWaiting(init, now), kept, games, now);
      if !StaleWaiting(last, now) {
        assert DropStaleMatched(kept, games, now)
          == DropStaleMatched([], games, now) + (if StaleMatched(last, games, now) then [] else [last]);
      }
    }
  }

  /** The sweep keeps an entry exactly when it is not stale, and deletes as many entries
      as are stale. */
  lemma {:induction false} SurvivorsAreTheFreshEntries(q: seq<QueueEntry>, games: map<GameId, Game>, now: int)
    ensures forall e :: e in Survivors(q, games, now) <==> e in q && !Stale(e, games, now)
    ensures |Survivors(q, games, now)| + StaleCount(q, games, now) == |q|
    decreases |q|
  {
    if q != [] {
      var init := q[..|q| - 1];
      SurvivorsAreTheFreshEntries(init, games, now);
      assert q == init + [q[|q| - 1]];
    }
  }

  // ---- one open entry per user ----

  /** No user holds two waiting-or-matched entries. */
  predicate OneOpenPerUser(q: seq<QueueEntry>) {
    forall i, j :: 0 <= i < j < |q| && IsOpen(q[i]) && IsOpen(q[j]) ==> q[i].userId != q[j].userId
  }

  /** The sweep keeps the table free of a second open entry for any user. */
  lemma {:induction false} SurvivorsKeepOneOpenPerUser(q: seq<QueueEntry>, games: map<GameId, Game>, now: int)
    requires OneOpenPerUser(q)
    ensures OneOpenPerUser(Survivors(q, games, now))
    decreases |q|
  {
    if q != [] {
      var init, last := q[..|q| - 1], q[|q| - 1];
      assert OneOpenPerUser(init) by {
        forall i, j | 0 <= i < j < |init| && IsOpen(init[i]) && IsOpen(init[j])
          ensures init[i].userId != init[j].userId
        {
          assert init[i] == q[i] && init[j] == q[j];
        }
      }
      SurvivorsKeepOneOpenPerUser(init, games, now);
      SurvivorsAreTheFreshEntries(init, games, now);
      var s := Survivors(init, games, now);
      if !Stale(last, games, now) {
        forall i | 0 <= i < |s| && IsOpen(s[i]) && IsOpen(last)
          ensures s[i].userId != last.userId
        {
          assert s[i] in init;
          var k :| 0 <= k < |init| && init[k] == s[i];
          assert q[k] == s[i];
        }
      }
    }
  }

  /** Once a cancel has deleted the user's first open entry, no open entry of theirs is
      left, so the user may queue again. */
  lemma CancelLeavesNoOpenEntry(q: seq<QueueEntry>, user: UserId)
    requires OneOpenPerUser(q) && FirstOpenEntry(q, user).Some?
    ensures var k := FirstOpenEntry(q, user).value;
      FirstOpenEntry(q[..k] + q[k + 1..], user).None?
  {
    var k := FirstOpenEntry(q, user).value;
    var r := q[..k] + q[k + 1..];
    forall m | 0 <= m < |r|
      ensures !OpenFor(r[m], user)
    {
      if m < k {
        assert r[m] == q[m];
      } else {
        assert r[m] == q[m + 1] && OpenFor(q[k], user);
      }
    }
  }

  /** The sweep's two loops, over a snapshot of the table: first the waiting entries
      older than 30 minutes, then the matched entries older than 10 minutes whose user
      is in no active game. Returns what remains and how many were deleted. */
  method PlanCleanup(queue: seq<QueueEntry>, games: map<GameId, Game>, now: int)
    returns (kept: seq<QueueEntry>, cleanedCount: nat)
    ensures kept == Survivors(queue, games, now)
    ensures cleanedCount == StaleCount(queue, games, now) == |queue| - |kept|
  {
    cleanedCount := 0;
    var afterWaiting: seq<QueueEntry> := [];
    for i := 0 to |queue|
      invariant afterWaiting == DropStaleWaiting(queue[..i], now)
      invariant cleanedCount + |afterWaiting| == i
    {
      var entry := queue[i];
      if StaleWaiting(entry, now) {
        cleanedCount := cleanedCount + 1;
      } else {
        afterWaiting := afterWaiting + [entry];
      }
      assert queue[..i + 1][..i] == queue[..i];
    }
    assert queue[..|queue|] == queue;
    kept := [];
    for j := 0 to |afterWaiting|
      invariant kept == DropStaleMatched(afterWaiting[..j], games, now)
      invariant cleanedCount + |kept| == |queue| - |afterWaiting| + j
    {
      var entry := afterWaiting[j];
      if StaleMatched(entry, games, now) {
        cleanedCount := cleanedCount + 1;
      } else {
        kept := kept + [entry];
      }
      assert afterWaiting[..j + 1][..j] == afterWaiting[..j];
    }
    assert afterWaiting[..|afterWaiting|] == afterWaiting;
    TwoPassesAreOneSweep(queue, games, now);
    SurvivorsAreTheFreshEntries(queue, games, now);
  }
}
