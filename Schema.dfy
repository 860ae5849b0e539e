/** The persisted records of the arena (the tables of shared/schema.ts) as values.
    Timestamps are milliseconds since the epoch; a nullable column is an Option. */
module Schema {

  datatype Option<+T> = None | Some(value: T) {
    /** The value, or `default` for None (JavaScript's `x || default` on a nullable column). */
    function GetOr(default: T): T {
      match this
      case Some(v) => v
      case None => default
    }
  }

  /** battles.status: ACTIVE, COMPLETED or FAILED. */
  datatype Status = Active | Completed | Failed

  /** challenges.difficulty: EASY, MEDIUM, HARD or BOSS. */
  datatype Difficulty = Easy | Medium | Hard | Boss

  /** One component dropped on the design canvas. */
  datatype Node = Node(id: string, componentType: string)

  /** The JSON design a battle carries; only its optional `nodes` list is read by the core. */
  datatype Architecture = Architecture(nodes: Option<seq<Node>>)

  /** A challenge; `timeLimit` is in minutes. */
  datatype Challenge = Challenge(
    id: int,
    title: string,
    difficulty: Difficulty,
    timeLimit: int,
    xpReward: int,
    createdAt: int)

  /** A battle row; `timeSpent` is in seconds. */
  datatype Battle = Battle(
    id: int,
    userId: string,
    challengeId: int,
    status: Status,
    startedAt: Option<int>,
    completedAt: Option<int>,
    timeSpent: Option<int>,
    score: Option<int>,
    architecture: Option<Architecture>,
    createdAt: int)

  /** A tutorial_progress row, keyed in practice by (userId, stepId). */
  datatype TutorialProgress = TutorialProgress(
    id: int,
    userId: string,
    stepId: string,
    completed: bool,
    completedAt: Option<int>,
    createdAt: int)

  /** One column of a partial update: left as it is, or set to a (possibly null) value. */
  datatype Field<+T> = Keep | SetTo(value: T)

  function Assign<T>(f: Field<T>, current: T): T {
    match f
    case Keep => current
    case SetTo(v) => v
  }

  /** The `Partial<Battle>` a client sends with PATCH /api/battles/:id. */
  datatype BattlePatch = BattlePatch(
    status: Field<Status>,
    completedAt: Field<Option<int>>,
    timeSpent: Field<Option<int>>,
    score: Field<Option<int>>,
    architecture: Field<Option<Architecture>>)

  /** The row after `UPDATE battles SET <patch>`: the set columns take the patch's values,
      every other column keeps its value. */
  function ApplyPatch(b: Battle, p: BattlePatch): (r: Battle)
    ensures r.id == b.id && r.userId == b.userId && r.challengeId == b.challengeId
    ensures r.startedAt == b.startedAt && r.createdAt == b.createdAt
    ensures p.status.SetTo? ==> r.status == p.status.value
    ensures p.status.Keep? ==> r.status == b.status
    ensures p.timeSpent.SetTo? ==> r.timeSpent == p.timeSpent.value
    ensures p.timeSpent.Keep? ==> r.timeSpent == b.timeSpent
    ensures p.score.SetTo? ==> r.score == p.score.value
    ensures p.score.Keep? ==> r.score == b.score
    ensures p.completedAt.SetTo? ==> r.completedAt == p.completedAt.value
    ensures p.completedAt.Keep? ==> r.completedAt == b.completedAt
    ensures p.architecture.SetTo? ==> r.architecture == p.architecture.value
    ensures p.architecture.Keep? ==> r.architecture == b.architecture
  {
    b.(status := Assign(p.status, b.status),
       completedAt := Assign(p.completedAt, b.completedAt),
       timeSpent := Assign(p.timeSpent, b.timeSpent),
       score := Assign(p.score, b.score),
       architecture := Assign(p.architecture, b.architecture))
  }
}
