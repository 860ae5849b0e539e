/** The server's storage layer (server/storage.ts) over in-memory tables: the battles and
    tutorial_progress tables are sequences of rows held by a `Database` object, and each query
    or update is a method over them. */
module Storage {
  import opened Schema
  import opened Query

  /* ---------------------------------------------------------------- battles */

  predicate IsWon(b: Battle) {
    b.status == Completed
  }

  /** `b.timeSpent` is truthy: present and not zero. */
  predicate HasTimeSpent(b: Battle) {
    b.timeSpent.Some? && b.timeSpent.value != 0
  }

  function CreatedAt(b: Battle): int {
    b.createdAt
  }

  /** The streak sort key: `completedAt || 0`. */
  function CompletedAtOrZero(b: Battle): int {
    b.completedAt.GetOr(0)
  }

  /** `WHERE user_id = userId` on the battles table: each of the user's rows as often as it is
      in the table, and no other row. */
  function OwnedBy(s: seq<Battle>, userId: string): (r: seq<Battle>)
    ensures forall b :: b in s ==> multiset(r)[b] == if b.userId == userId then multiset(s)[b] else 0
    ensures multiset(r) <= multiset(s)
    ensures forall i :: 0 <= i < |r| ==> r[i].userId == userId
  {
    Filter(s, (b: Battle) => b.userId == userId)
  }

  ghost predicate UniqueBattleIds(s: seq<Battle>) {
    forall i, j :: 0 <= i < j < |s| ==> s[i].id != s[j].id
  }

  ghost predicate BattleIdsBelow(s: seq<Battle>, bound: int) {
    forall i :: 0 <= i < |s| ==> s[i].id < bound
  }

  /** The WHERE clause of updateBattle: the battle id and the owner both match. */
  predicate Targets(b: Battle, battleId: int, userId: string) {
    b.id == battleId && b.userId == userId
  }

  /** The table after `UPDATE battles SET patch WHERE id = battleId AND user_id = userId`. */
  function UpdateWhere(s: seq<Battle>, battleId: int, userId: string, patch: BattlePatch): (r: seq<Battle>)
    ensures |r| == |s|
    ensures forall i :: 0 <= i < |s| && Targets(s[i], battleId, userId) ==> r[i] == ApplyPatch(s[i], patch)
    ensures forall i :: 0 <= i < |s| && !Targets(s[i], battleId, userId) ==> r[i] == s[i]
  {
    if s == [] then []
    else
      var head := if Targets(s[0], battleId, userId) then ApplyPatch(s[0], patch) else s[0];
      [head] + UpdateWhere(s[1..], battleId, userId, patch)
  }

  /* ------------------------------------------------------------- statistics */

  /** The figures GET /api/user/stats returns. */
  datatype UserStats = UserStats(
    totalBattles: nat,
    battlesWon: nat,
    winRate: real,
    avgCompletionTime: real,
    currentStreak: nat,
    xpToNextTier: int)

  /** The `reduce` summing `timeSpent || 0`: a battle without a time adds nothing, so the sum
      over all battles equals the sum over the timed ones (SumTimeSpentOfTimed). */
  function SumTimeSpent(s: seq<Battle>): (total: int)
    ensures (forall i :: 0 <= i < |s| ==> !HasTimeSpent(s[i])) ==> total == 0
  {
    if s == [] then 0 else s[0].timeSpent.GetOr(0) + SumTimeSpent(s[1..])
  }

  /** Summing `timeSpent || 0` over all battles or only over those with a truthy timeSpent gives
      the same total. */
  lemma {:induction false} SumTimeSpentOfTimed(s: seq<Battle>)
    ensures SumTimeSpent(Filter(s, HasTimeSpent)) == SumTimeSpent(s)
  {
    if s != [] {
      var rest := Filter(s[1..], HasTimeSpent);
      SumTimeSpentOfTimed(s[1..]);
      if HasTimeSpent(s[0]) {
        assert Filter(s, HasTimeSpent) == [s[0]] + rest;
        assert ([s[0]] + rest)[1..] == rest;
      } else {
        assert Filter(s, HasTimeSpent) == rest;
      }
    }
  }

  /** How many battles at the front of `s` are COMPLETED: what the streak loop counts. */
  function LeadingCompleted(s: seq<Battle>): (n: nat)
    ensures n <= |s|
  {
    if s == [] || !IsWon(s[0]) then 0 else 1 + LeadingCompleted(s[1..])
  }

  /** On a list of COMPLETED battles only, the streak loop never reaches its `break`. */
  lemma {:induction false} LeadingCompletedOfWon(s: seq<Battle>)
    requires forall i :: 0 <= i < |s| ==> IsWon(s[i])
    ensures LeadingCompleted(s) == |s|
  {
    if s != [] {
      LeadingCompletedOfWon(s[1..]);
    }
  }

  /** Sorting the COMPLETED battles keeps them all COMPLETED and keeps their number. */
  lemma SortedWonAreWon(s: seq<Battle>)
    ensures var sorted := SortDesc(Filter(s, IsWon), CompletedAtOrZero);
      |sorted| == |Filter(s, IsWon)| && forall i :: 0 <= i < |sorted| ==> IsWon(sorted[i])
  {
    var won := Filter(s, IsWon);
    var sorted := SortDesc(won, CompletedAtOrZero);
    forall i | 0 <= i < |sorted|
      ensures IsWon(sorted[i])
    {
      assert sorted[i] in multiset(sorted);
      assert sorted[i] in won;
    }
  }

  /** XP still needed to reach the next multiple of 1000, at 100 XP per win. */
  function XpToNextTier(battlesWon: nat): (xp: int)
    ensures 0 < xp <= 1000
    ensures (battlesWon * 100 + xp) % 1000 == 0
  {
    var xp := 1000 - (battlesWon * 100) % 1000;
    assert battlesWon * 100 + xp == 1000 * (battlesWon * 100 / 1000 + 1);
    xp
  }

  /** The XP still needed is a whole number of 100-XP wins between 100 and 1000, and is a full
      1000 exactly when the number of wins is a multiple of ten. */
  lemma XpToNextTierRange(battlesWon: nat)
    ensures 100 <= XpToNextTier(battlesWon) <= 1000
    ensures XpToNextTier(battlesWon) % 100 == 0
    ensures XpToNextTier(battlesWon) == 1000 <==> battlesWon % 10 == 0
  {
  }

  /** Win rate in percent: 0 with no battles, otherwise won / total * 100 (exact arithmetic). */
  function WinRate(battlesWon: nat, totalBattles: nat): (rate: real)
    requires battlesWon <= totalBattles
    ensures 0.0 <= rate <= 100.0
    ensures totalBattles == 0 ==> rate == 0.0
    ensures totalBattles > 0 ==> rate * totalBattles as real == (100 * battlesWon) as real
  {
    if totalBattles > 0 then
      var ratio := battlesWon as real / totalBattles as real;
      assert ratio * totalBattles as real == battlesWon as real;
      assert ratio <= 1.0 by {
        if ratio > 1.0 {
          assert ratio * totalBattles as real > totalBattles as real;
        }
      }
      ratio * 100.0
    else 0.0
  }

  /** Mean `timeSpent` of the battles that have a non-zero one, or 0 when there are none. */
  function AvgCompletionTime(timed: seq<Battle>): (avg: real)
    ensures |timed| == 0 ==> avg == 0.0
    ensures |timed| > 0 ==> avg * |timed| as real == SumTimeSpent(timed) as real
  {
    if |timed| > 0 then SumTimeSpent(timed) as real / |timed| as real else 0.0
  }

  /* ------------------------------------------------------- tutorial progress */

  predicate ProgressKeyIs(r: TutorialProgress, userId: string, stepId: string) {
    r.userId == userId && r.stepId == stepId
  }

  ghost predicate UniqueProgressKeys(s: seq<TutorialProgress>) {
    forall i, j :: 0 <= i < j < |s| ==> !ProgressKeyIs(s[j], s[i].userId, s[i].stepId)
  }

  ghost predicate ProgressIdsBelow(s: seq<TutorialProgress>, bound: int) {
    forall i :: 0 <= i < |s| ==> s[i].id < bound
  }

  ghost predicate UniqueProgressIds(s: seq<TutorialProgress>) {
    forall i, j :: 0 <= i < j < |s| ==> s[i].id != s[j].id
  }

  /** The index of the first row for (userId, stepId): the `existing` row of the select. */
  function FindProgress(s: seq<TutorialProgress>, userId: string, stepId: string): (k: Option<nat>)
    ensures k.Some? ==> k.value < |s| && ProgressKeyIs(s[k.value], userId, stepId)
    ensures k.Some? ==> forall j :: 0 <= j < k.value ==> !ProgressKeyIs(s[j], userId, stepId)
    ensures k.None? ==> forall j :: 0 <= j < |s| ==> !ProgressKeyIs(s[j], userId, stepId)
  {
    if s == [] then None
    else if ProgressKeyIs(s[0], userId, stepId) then Some(0)
    else
      match FindProgress(s[1..], userId, stepId)
      case None => None
      case Some(k) => Some(k + 1)
  }

  /** `completedAt: completed ? new Date() : null`. */
  function CompletedAtFor(completed: bool, now: int): (at: Option<int>)
    ensures at.Some? <==> completed
    ensures at.Some? ==> at.value == now
  {
    if completed then Some(now) else None
  }

  /** The rows after `UPDATE tutorial_progress SET completed, completedAt WHERE user_id AND step_id`. */
  function SetCompletion(s: seq<TutorialProgress>, userId: string, stepId: string, completed: bool, now: int)
    : (r: seq<TutorialProgress>)
    ensures |r| == |s|
    ensures forall i :: 0 <= i < |s| && ProgressKeyIs(s[i], userId, stepId) ==>
      r[i] == s[i].(completed := completed, completedAt := CompletedAtFor(completed, now))
    ensures forall i :: 0 <= i < |s| && !ProgressKeyIs(s[i], userId, stepId) ==> r[i] == s[i]
  {
    if s == [] then []
    else
      var head := if ProgressKeyIs(s[0], userId, stepId)
        then s[0].(completed := completed, completedAt := CompletedAtFor(completed, now))
        else s[0];
      [head] + SetCompletion(s[1..], userId, stepId, completed, now)
  }

  /** The tutorial_progress table after updateTutorialProgress: the rows for the pair are updated
      if there are any, otherwise one new row (id `nextId`, created `now`) is appended. */
  function UpsertProgress(s: seq<TutorialProgress>, nextId: int, userId: string, stepId: string,
                          completed: bool, now: int): (r: seq<TutorialProgress>)
    ensures |r| == if FindProgress(s, userId, stepId).Some? then |s| else |s| + 1
    ensures forall i :: 0 <= i < |s| ==>
      r[i].id == s[i].id && r[i].userId == s[i].userId && r[i].stepId == s[i].stepId && r[i].createdAt == s[i].createdAt
  {
    if FindProgress(s, userId, stepId).Some? then SetCompletion(s, userId, stepId, completed, now)
    else s + [TutorialProgress(nextId, userId, stepId, completed, CompletedAtFor(completed, now), now)]
  }

  /** Every row for the pair records `completed`, with a completion time exactly when it is true,
      and at least one such row exists. */
  lemma UpsertRecordsCompletion(s: seq<TutorialProgress>, nextId: int, userId: string, stepId: string,
                                completed: bool, now: int)
    ensures var r := UpsertProgress(s, nextId, userId, stepId, completed, now);
      (exists i :: 0 <= i < |r| && ProgressKeyIs(r[i], userId, stepId))
      && forall i :: 0 <= i < |r| && ProgressKeyIs(r[i], userId, stepId) ==>
           r[i].completed == completed && (r[i].completedAt.Some? <==> completed)
  {
    var r := UpsertProgress(s, nextId, userId, stepId, completed, now);
    var k := FindProgress(s, userId, stepId);
    if k.Some? {
      assert ProgressKeyIs(r[k.value], userId, stepId);
    } else {
      assert ProgressKeyIs(r[|s|], userId, stepId);
    }
  }

  /** Rows for other (userId, stepId) pairs keep their place and contents, and no row for another
      pair is added. */
  lemma UpsertKeepsOtherPairs(s: seq<TutorialProgress>, nextId: int, userId: string, stepId: string,
                              completed: bool, now: int)
    ensures var r := UpsertProgress(s, nextId, userId, stepId, completed, now);
      && |s| <= |r| <= |s| + 1
      && (forall i :: 0 <= i < |s| && !ProgressKeyIs(s[i], userId, stepId) ==> r[i] == s[i])
      && (forall i :: |s| <= i < |r| ==> ProgressKeyIs(r[i], userId, stepId))
      && (forall i :: 0 <= i < |s| ==> ProgressKeyIs(r[i], userId, stepId) == ProgressKeyIs(s[i], userId, stepId))
  {
  }

  /** The upsert never creates a second row for a pair, and the new row's id is fresh. */
  lemma UpsertKeepsKeysUnique(s: seq<TutorialProgress>, nextId: int, userId: string, stepId: string,
                              completed: bool, now: int)
    requires UniqueProgressKeys(s) && UniqueProgressIds(s) && ProgressIdsBelow(s, nextId)
    ensures var r := UpsertProgress(s, nextId, userId, stepId, completed, now);
      UniqueProgressKeys(r) && UniqueProgressIds(r) && ProgressIdsBelow(r, nextId + 1)
  {
  }

  /** The rows of one user (getTutorialProgress). */
  /** `WHERE user_id = userId` on the tutorial_progress table: each of the user's rows as often
      as it is in the table, and no other row. */
  function ProgressOf(s: seq<TutorialProgress>, userId: string): (r: seq<TutorialProgress>)
    ensures forall p :: p in s ==> multiset(r)[p] == if p.userId == userId then multiset(s)[p] else 0
    ensures multiset(r) <= multiset(s)
    ensures forall i :: 0 <= i < |r| ==> r[i].userId == userId
  {
    Filter(s, (r: TutorialProgress) => r.userId == userId)
  }

  /* ------------------------------------------------------------- the store */

  /** The database as the storage layer sees it: the battles and tutorial_progress tables and the
      next value of each `serial` id column. */
  class Database {
    var battles: seq<Battle>
    var tutorialProgress: seq<TutorialProgress>
    var nextBattleId: int
    var nextProgressId: int

    /** Primary keys are unique and below the next serial value; the upsert keeps at most one
        progress row per (userId, stepId). */
    ghost predicate Valid()
      reads this
    {
      && UniqueBattleIds(battles) && BattleIdsBelow(battles, nextBattleId)
      && UniqueProgressKeys(tutorialProgress) && UniqueProgressIds(tutorialProgress)
      && ProgressIdsBelow(tutorialProgress, nextProgressId)
    }

    constructor ()
      ensures Valid()
      ensures battles == [] && tutorialProgress == []
    {
      battles, tutorialProgress := [], [];
      nextBattleId, nextProgressId := 1, 1;
    }

    /** createBattle: inserts a row with a fresh serial id; startedAt and createdAt default to now. */
    method CreateBattle(userId: string, challengeId: int, status: Status, now: int) returns (b: Battle)
      requires Valid()
      modifies this
      ensures Valid()
      ensures b == Battle(old(nextBattleId), userId, challengeId, status, Some(now), None, None, None, None, now)
      ensures battles == old(battles) + [b]
      ensures tutorialProgress == old(tutorialProgress) && nextProgressId == old(nextProgressId)
    {
      b := Battle(nextBattleId, userId, challengeId, status, Some(now), None, None, None, None, now);
      battles := battles + [b];
      nextBattleId := nextBattleId + 1;
    }

    /** getUserBattles: exactly the user's battles, newest first. */
    method GetUserBattles(userId: string) returns (r: seq<Battle>)
      ensures forall i :: 0 <= i < |r| ==> r[i].userId == userId
      ensures forall b :: b in battles ==>
        multiset(r)[b] == if b.userId == userId then multiset(battles)[b] else 0
      ensures multiset(r) <= multiset(battles)
      ensures SortedDesc(r, CreatedAt)
    {
      var mine := OwnedBy(battles, userId);
      r := SortDesc(mine, CreatedAt);
      forall i | 0 <= i < |r|
        ensures r[i].userId == userId
      {
        assert r[i] in multiset(mine);
      }
    }

    /** updateBattle: applies the patch to the battle with this id owned by this user and returns
        it; with no such battle it changes nothing and returns nothing (a 404 for the route). */
    method UpdateBattle(battleId: int, userId: string, patch: BattlePatch) returns (updated: Option<Battle>)
      requires Valid()
      modifies this
      ensures Valid()
      ensures battles == UpdateWhere(old(battles), battleId, userId, patch)
      ensures tutorialProgress == old(tutorialProgress)
      ensures nextBattleId == old(nextBattleId) && nextProgressId == old(nextProgressId)
      ensures updated.None? <==> forall i :: 0 <= i < |battles| ==> !Targets(old(battles)[i], battleId, userId)
      ensures updated.None? ==> battles == old(battles)
      ensures updated.Some? ==> exists i :: 0 <= i < |battles| && Targets(old(battles)[i], battleId, userId) &&
                                           updated.value == battles[i] && battles[i] == ApplyPatch(old(battles)[i], patch)
      ensures forall i :: 0 <= i < |battles| && !Targets(old(battles)[i], battleId, userId) ==>
        battles[i] == old(battles)[i]
    {
      var rows: seq<Battle> := [];
      var i := 0;
      updated := None;
      while i < |battles|
        invariant 0 <= i <= |battles| && |rows| == i
        invariant forall k :: 0 <= k < i ==>
          rows[k] == if Targets(battles[k], battleId, userId) then ApplyPatch(battles[k], patch) else battles[k]
        invariant updated.None? <==> forall k :: 0 <= k < i ==> !Targets(battles[k], battleId, userId)
        invariant updated.Some? ==> exists k :: 0 <= k < i && Targets(battles[k], battleId, userId) &&
                                               updated.value == rows[k]
      {
        var row := battles[i];
        if Targets(row, battleId, userId) {
          row := ApplyPatch(row, patch);
          if updated.None? {
            updated := Some(row);
          }
        }
        rows := rows + [row];
        i := i + 1;
      }
      assert rows == UpdateWhere(battles, battleId, userId, patch);
      battles := rows;
    }

    /** getTutorialProgress: the user's progress rows. */
    method GetTutorialProgress(userId: string) returns (r: seq<TutorialProgress>)
      ensures forall i :: 0 <= i < |r| ==> r[i].userId == userId && r[i] in tutorialProgress
      ensures forall p :: p in tutorialProgress && p.userId == userId ==> p in r
      ensures forall p :: p in tutorialProgress ==>
        multiset(r)[p] == if p.userId == userId then multiset(tutorialProgress)[p] else 0
      ensures multiset(r) <= multiset(tutorialProgress)
    {
      r := ProgressOf(tutorialProgress, userId);
      forall p | p in tutorialProgress && p.userId == userId
        ensures p in r
      {
        assert multiset(r)[p] == multiset(tutorialProgress)[p];
      }
    }

    /** updateTutorialProgress: update the row for (userId, stepId) if there is one, else insert
        one; either way the returned row records `completed` and sets completedAt exactly when it
        is true. */
    method UpdateTutorialProgress(userId: string, stepId: string, completed: bool, now: int)
      returns (row: TutorialProgress)
      requires Valid()
      modifies this
      ensures Valid()
      ensures tutorialProgress == UpsertProgress(old(tutorialProgress), old(nextProgressId), userId, stepId, completed, now)
      ensures battles == old(battles) && nextBattleId == old(nextBattleId)
      ensures row in tutorialProgress && ProgressKeyIs(row, userId, stepId)
      ensures row.completed == completed && (row.completedAt.Some? <==> completed)
      ensures forall i :: 0 <= i < |tutorialProgress| && ProgressKeyIs(tutorialProgress[i], userId, stepId) ==>
        tutorialProgress[i] == row
      ensures |tutorialProgress| == |old(tutorialProgress)| + (if row.id == old(nextProgressId) then 1 else 0)
    {
      UpsertKeepsKeysUnique(tutorialProgress, nextProgressId, userId, stepId, completed, now);
      var existing := FindProgress(tutorialProgress, userId, stepId);
      if existing.Some? {
        var k := existing.value;
        tutorialProgress := SetCompletion(tutorialProgress, userId, stepId, completed, now);
        row := tutorialProgress[k];
      } else {
        row := TutorialProgress(nextProgressId, userId, stepId, completed, CompletedAtFor(completed, now), now);
        tutorialProgress := tutorialProgress + [row];
        nextProgressId := nextProgressId + 1;
      }
    }

    /** The streak loop: counts COMPLETED battles from the front and stops at the first other one. */
    static method CurrentStreak(sorted: seq<Battle>) returns (streak: nat)
      ensures streak == LeadingCompleted(sorted)
    {
      streak := 0;
      var i := 0;
      while i < |sorted|
        invariant 0 <= i <= |sorted| && streak == i
        invariant LeadingCompleted(sorted) == i + LeadingCompleted(sorted[i..])
      {
        assert sorted[i..][1..] == sorted[i + 1..];
        if IsWon(sorted[i]) {
          streak := streak + 1;
        } else {
          break;
        }
        i := i + 1;
      }
    }

    /** getUserStats: totals, win rate, mean completion time, streak and XP to the next tier over
        the user's battles. The streak always equals the number of wins. */
    method GetUserStats(userId: string) returns (stats: UserStats)
      ensures var mine := OwnedBy(battles, userId);
        && stats.totalBattles == |mine|
        && stats.battlesWon == |Filter(mine, IsWon)|
        && stats.avgCompletionTime == AvgCompletionTime(Filter(mine, HasTimeSpent))
      ensures stats.battlesWon <= stats.totalBattles
      ensures stats.winRate == WinRate(stats.battlesWon, stats.totalBattles)
      ensures 0.0 <= stats.winRate <= 100.0
      ensures stats.currentStreak == stats.battlesWon
      ensures stats.xpToNextTier == XpToNextTier(stats.battlesWon)
      ensures 100 <= stats.xpToNextTier <= 1000 && stats.xpToNextTier % 100 == 0
    {
      var userBattles := OwnedBy(battles, userId);
      var totalBattles := |userBattles|;
      var battlesWon := |Filter(userBattles, IsWon)|;
      var winRate := WinRate(battlesWon, totalBattles);
      var avgCompletionTime := AvgCompletionTime(Filter(userBattles, HasTimeSpent));
      var sortedBattles := SortDesc(Filter(userBattles, IsWon), CompletedAtOrZero);
      var currentStreak := CurrentStreak(sortedBattles);
      SortedWonAreWon(userBattles);
      LeadingCompletedOfWon(sortedBattles);
      XpToNextTierRange(battlesWon);
      stats := UserStats(totalBattles, battlesWon, winRate, avgCompletionTime, currentStreak,
                         XpToNextTier(battlesWon));
    }
  }
}
