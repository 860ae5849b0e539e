/** The battle page (client/src/pages/challenge.tsx): scoring, the `m:ss` clock, the remaining
    time of a resumed battle, the time spent on submit, and the page state that the countdown
    drives. Clock readings are `now` parameters in milliseconds; the PATCH requests the page sends
    are recorded in order instead of being sent. */
module Challenge {
  import opened Schema

  /* ------------------------------------------------------------------ score */

  /** `architecture.nodes?.length || 0`. */
  function ComponentsCount(a: Architecture): nat {
    match a.nodes
    case Some(ns) => |ns|
    case None => 0
  }

  function RealMax(x: real, y: real): real {
    if x >= y then x else y
  }

  /** The score expression before `Math.floor`, over exact reals:
      components * 10 + max(0, timeLeft / 60) * 5. Each component is worth ten points and each
      second left a twelfth of a point; time past the limit costs nothing. */
  function ScoreFormula(components: nat, timeLeft: int): (x: real)
    ensures timeLeft <= 0 ==> x == (10 * components) as real
    ensures timeLeft > 0 ==> x == (10 * components) as real + timeLeft as real / 12.0
  {
    components as real * 10.0 + RealMax(0.0, timeLeft as real / 60.0) * 5.0
  }

  /** The floor of the score expression is ten points per component plus one point per twelve
      whole seconds left. */
  lemma ScoreFormulaFloor(components: nat, timeLeft: int)
    ensures ScoreFormula(components, timeLeft).Floor == 10 * components + (if timeLeft > 0 then timeLeft / 12 else 0)
  {
  }

  /** calculateScore: 0 without an architecture, otherwise the floor of the score expression. */
  function CalculateScore(architecture: Option<Architecture>, timeLeft: int): (score: nat)
    ensures architecture.None? ==> score == 0
    ensures architecture.Some? ==> score == ScoreFormula(ComponentsCount(architecture.value), timeLeft).Floor
  {
    match architecture
    case None => 0
    case Some(a) =>
      ScoreFormulaFloor(ComponentsCount(a), timeLeft);
      10 * ComponentsCount(a) + if timeLeft > 0 then timeLeft / 12 else 0
  }

  /** More components or more time left never lowers the score. */
  lemma ScoreMonotone(a1: Architecture, a2: Architecture, t1: int, t2: int)
    requires ComponentsCount(a1) <= ComponentsCount(a2) && t1 <= t2
    ensures CalculateScore(Some(a1), t1) <= CalculateScore(Some(a2), t2)
  {
  }

  /* ------------------------------------------------------------ the clock */

  function DigitChar(d: nat): char
    requires d < 10
  {
    (48 + d) as char
  }

  function DigitValue(c: char): nat
    requires '0' <= c <= '9'
  {
    c as int - 48
  }

  predicate IsDigits(s: string) {
    |s| > 0 && forall i :: 0 <= i < |s| ==> '0' <= s[i] <= '9'
  }

  /** The value of a decimal numeral. */
  function DigitsValue(s: string): nat
    requires IsDigits(s)
    decreases |s|
  {
    if |s| == 1 then DigitValue(s[0])
    else 10 * DigitsValue(s[..|s| - 1]) + DigitValue(s[|s| - 1])
  }

  /** The decimal numeral of `n`, without leading zeros. */
  function NatToString(n: nat): (s: string)
    ensures IsDigits(s)
  {
    if n < 10 then [DigitChar(n)] else NatToString(n / 10) + [DigitChar(n % 10)]
  }

  lemma {:induction false} NatToStringValue(n: nat)
    ensures DigitsValue(NatToString(n)) == n
  {
    var s := NatToString(n);
    if n >= 10 {
      NatToStringValue(n / 10);
      assert s[..|s| - 1] == NatToString(n / 10);
    }
  }

  /** `Number.prototype.toString` on an integer. */
  function IntToString(i: int): string {
    if i < 0 then "-" + NatToString(-i) else NatToString(i)
  }

  /** The numeral reads back as the value, after a minus sign when the value is negative. */
  lemma IntToStringValue(i: int)
    ensures i >= 0 ==> IsDigits(IntToString(i)) && DigitsValue(IntToString(i)) == i
    ensures i < 0 ==> var s := IntToString(i);
      |s| >= 2 && s[0] == '-' && IsDigits(s[1..]) && DigitsValue(s[1..]) == -i
  {
    if i < 0 {
      var n := NatToString(-i);
      var s := "-" + n;
      assert IntToString(i) == s;
      assert s[1..] == n;
      NatToStringValue(-i);
    } else {
      NatToStringValue(i);
    }
  }

  /** `String.prototype.padStart`. */
  function PadStart(s: string, width: nat, fill: char): string {
    if |s| >= width then s else seq(width - |s|, _ => fill) + s
  }

  /** Padding reaches the width, keeps `s` at the end, and puts only `fill` before it. */
  lemma PadStartShape(s: string, width: nat, fill: char)
    ensures var r := PadStart(s, width, fill);
      && |r| == (if |s| >= width then |s| else width)
      && r[|r| - |s|..] == s
      && forall i :: 0 <= i < |r| - |s| ==> r[i] == fill
  {
  }

  /** JavaScript's `%`: the remainder takes the sign of the dividend. */
  function JsRemainder(a: int, b: int): (r: int)
    requires b > 0
    ensures -b < r < b
    ensures r % b == a % b
    ensures a >= 0 ==> r >= 0
    ensures a < 0 ==> r <= 0
  {
    var m := a % b;
    if a >= 0 || m == 0 then
      assert m % b == m by { ModOfSmall(m, b); }
      m
    else
      assert (m - b) % b == m by { ModOfSmall(m, b); ModShift(m - b, b); }
      m - b
  }

  lemma ModOfSmall(m: int, b: int)
    requires 0 <= m < b
    ensures m % b == m
  {
  }

  /** Euclidean division is unique: a remainder in [0, b) fixes quotient and remainder. */
  lemma ModUnique(y: int, b: int, k: int, m: int)
    requires b > 0 && 0 <= m < b && y == b * k + m
    ensures y % b == m
  {
    var d := k - y / b;
    assert b * d == y % b - m;
  }

  lemma ModShift(x: int, b: int)
    requires b > 0
    ensures (x + b) % b == x % b
  {
    ModUnique(x + b, b, x / b + 1, x % b);
  }

  /** formatTime: `${Math.floor(s / 60)}:${(s % 60).toString().padStart(2, '0')}`.
      (Dafny's `/` by a positive divisor rounds down, as Math.floor does.) */
  function FormatTime(seconds: int): string {
    IntToString(seconds / 60) + ":" + PadStart(IntToString(JsRemainder(seconds, 60)), 2, '0')
  }

  /** Seconds below a minute are shown as exactly two digits. */
  lemma PaddedSeconds(ss: nat)
    requires ss < 60
    ensures PadStart(IntToString(ss), 2, '0') == [DigitChar(ss / 10), DigitChar(ss % 10)]
  {
    if ss < 10 {
      assert NatToString(ss) == [DigitChar(ss)];
      assert seq(1, _ => '0') == [DigitChar(0)];
    } else {
      assert NatToString(ss / 10) == [DigitChar(ss / 10)];
      assert NatToString(ss) == NatToString(ss / 10) + [DigitChar(ss % 10)];
    }
  }

  /** For a non-negative count the clock is the whole minutes, a colon, and exactly two digits
      of the seconds within the minute. */
  lemma FormatTimeDigits(seconds: nat)
    ensures FormatTime(seconds) ==
      NatToString(seconds / 60) + ":" + [DigitChar(seconds % 60 / 10), DigitChar(seconds % 60 % 10)]
  {
    assert JsRemainder(seconds, 60) == seconds % 60;
    PaddedSeconds(seconds % 60);
  }

  /** The first position of `c` in `s`. */
  function IndexOf(s: string, c: char): (k: Option<nat>)
    ensures k.Some? ==> k.value < |s| && s[k.value] == c && forall j :: 0 <= j < k.value ==> s[j] != c
    ensures k.None? ==> forall j :: 0 <= j < |s| ==> s[j] != c
  {
    if s == [] then None
    else if s[0] == c then Some(0)
    else
      match IndexOf(s[1..], c)
      case None => None
      case Some(k) => Some(k + 1)
  }

  /** Reads an `m:ss` clock back into seconds; None for anything else. */
  function ParseClock(t: string): Option<int> {
    match IndexOf(t, ':')
    case None => None
    case Some(k) =>
      var m, ss := t[..k], t[k + 1..];
      if IsDigits(m) && |ss| == 2 && IsDigits(ss) && DigitsValue(ss) < 60
      then Some(60 * DigitsValue(m) + DigitsValue(ss))
      else None
  }

  lemma ColonAfterDigits(m: string, rest: string)
    requires IsDigits(m)
    ensures IndexOf(m + ":" + rest, ':') == Some(|m|)
  {
    var t := m + ":" + rest;
    assert t[|m|] == ':';
    assert forall j :: 0 <= j < |m| ==> t[j] == m[j] && t[j] != ':';
  }

  lemma TwoDigitsValue(hi: nat, lo: nat)
    requires hi < 10 && lo < 10
    ensures IsDigits([DigitChar(hi), DigitChar(lo)])
    ensures DigitsValue([DigitChar(hi), DigitChar(lo)]) == 10 * hi + lo
  {
  }

  /** The two sides of the colon in `m:ss`. */
  lemma ClockParts(m: string, ss: string)
    ensures (m + ":" + ss)[..|m|] == m && (m + ":" + ss)[|m| + 1..] == ss
  {
  }

  /** Reading back a clock made of a minutes numeral and two seconds digits. */
  lemma ParseClockOf(minutes: nat, ss: nat)
    requires ss < 60
    ensures ParseClock(NatToString(minutes) + ":" + [DigitChar(ss / 10), DigitChar(ss % 10)]) == Some(60 * minutes + ss)
  {
    var m := NatToString(minutes);
    var two := [DigitChar(ss / 10), DigitChar(ss % 10)];
    var t := m + ":" + two;
    NatToStringValue(minutes);
    ColonAfterDigits(m, two);
    TwoDigitsValue(ss / 10, ss % 10);
    ClockParts(m, two);
    assert DigitsValue(two) == ss;
  }

  /** Reading the clock back gives the seconds it was made from. */
  lemma FormatTimeRoundTrip(seconds: nat)
    ensures ParseClock(FormatTime(seconds)) == Some(seconds)
  {
    FormatTimeDigits(seconds);
    ParseClockOf(seconds / 60, seconds % 60);
  }

  /** A negative count (possible only with a negative time limit) shows a negative remainder. */
  lemma FormatTimeNegative()
    ensures FormatTime(-5) == "-1:-5"
  {
    assert JsRemainder(-5, 60) == -5;
    assert IntToString(-1) == "-" + NatToString(1) == "-1";
    assert IntToString(-5) == "-" + NatToString(5) == "-5";
  }

  /* ------------------------------------------------------------ battle time */

  /** The remaining seconds of a resumed battle:
      floor(max(0, timeLimit * 60 * 1000 - (now - startedAt)) / 1000). */
  function RemainingSeconds(timeLimit: int, startedAt: int, now: int): (r: nat)
    ensures var remainingMs := timeLimit * 60000 - (now - startedAt);
      && (remainingMs <= 0 ==> r == 0)
      && (remainingMs > 0 ==> r * 1000 <= remainingMs < (r + 1) * 1000)
    ensures now >= startedAt && timeLimit >= 0 ==> r <= timeLimit * 60
  {
    var remainingMs := timeLimit * 60000 - (now - startedAt);
    if remainingMs > 0 then remainingMs / 1000 else 0
  }

  /** A later clock reading never leaves more time. */
  lemma RemainingSecondsNonIncreasing(timeLimit: int, startedAt: int, now1: int, now2: int)
    requires now1 <= now2
    ensures RemainingSeconds(timeLimit, startedAt, now2) <= RemainingSeconds(timeLimit, startedAt, now1)
  {
  }

  /** timeSpent on submit: the time limit in seconds minus what is left, or 0 while the challenge
      has not loaded. */
  function TimeSpent(challenge: Option<Schema.Challenge>, timeLeft: int): (spent: int)
    ensures challenge.None? ==> spent == 0
    ensures challenge.Some? ==> spent + timeLeft == challenge.value.timeLimit * 60
    ensures challenge.Some? && 0 <= timeLeft <= challenge.value.timeLimit * 60 ==>
      0 <= spent <= challenge.value.timeLimit * 60
  {
    match challenge
    case Some(c) => c.timeLimit * 60 - timeLeft
    case None => 0
  }

  /* ---------------------------------------------------------- resuming */

  predicate IsActiveFor(b: Battle, challengeId: int) {
    b.challengeId == challengeId && b.status == Active
  }

  /** The position of the first ACTIVE battle of this challenge. */
  function FirstActive(battles: seq<Battle>, challengeId: int): (k: Option<nat>)
    ensures k.Some? ==> k.value < |battles| && IsActiveFor(battles[k.value], challengeId)
    ensures k.Some? ==> forall j :: 0 <= j < k.value ==> !IsActiveFor(battles[j], challengeId)
    ensures k.None? ==> forall j :: 0 <= j < |battles| ==> !IsActiveFor(battles[j], challengeId)
  {
    if battles == [] then None
    else if IsActiveFor(battles[0], challengeId) then Some(0)
    else
      match FirstActive(battles[1..], challengeId)
      case None => None
      case Some(k) => Some(k + 1)
  }

  /** `userBattles.find(b => b.challengeId === challengeId && b.status === "ACTIVE")`. */
  function FindActiveBattle(battles: seq<Battle>, challengeId: int): (r: Option<Battle>)
    ensures r.None? <==> forall j :: 0 <= j < |battles| ==> !IsActiveFor(battles[j], challengeId)
    ensures r.Some? ==> exists k :: 0 <= k < |battles| && battles[k] == r.value &&
                                    IsActiveFor(battles[k], challengeId) &&
                                    forall j :: 0 <= j < k ==> !IsActiveFor(battles[j], challengeId)
  {
    match FirstActive(battles, challengeId)
    case None => None
    case Some(k) => Some(battles[k])
  }

  /** What the resume effect sets: the battle, the timer when it is set, and the saved design
      when the battle has one (None leaves that piece of page state as it was). */
  datatype Resumed = Resumed(battle: Battle, timeLeft: Option<nat>, architecture: Option<Architecture>)

  /** The resume effect as written: the battle is taken up as soon as the battles list has it,
      but its timer is set only when the challenge has also loaded. */
  function ResumeAsWritten(userBattles: seq<Battle>, challengeId: int, challenge: Option<Schema.Challenge>, now: int)
    : (r: Option<Resumed>)
    ensures r.Some? <==> FindActiveBattle(userBattles, challengeId).Some?
    ensures r.Some? ==> r.value.battle == FindActiveBattle(userBattles, challengeId).value
  {
    match FindActiveBattle(userBattles, challengeId)
    case None => None
    case Some(b) =>
      var timer := if b.startedAt.Some? && challenge.Some?
        then Some(RemainingSeconds(challenge.value.timeLimit, b.startedAt.value, now))
        else None;
      Some(Resumed(b, timer, b.architecture))
  }

  /** As written, a battle found before the challenge has loaded is taken up with its timer unset,
      so the page keeps `timeLeft` at its initial 0; the countdown's next run then submits that
      battle, which the server stores as COMPLETED with no time spent. */
  lemma ResumeBeforeChallengeLeavesTimerUnset(userBattles: seq<Battle>, challengeId: int, now: int)
    requires FindActiveBattle(userBattles, challengeId).Some?
    ensures var r := ResumeAsWritten(userBattles, challengeId, None, now);
      r.Some? && r.value.battle.challengeId == challengeId && r.value.battle.status == Active &&
      r.value.timeLeft.None?
    ensures var r := ResumeAsWritten(userBattles, challengeId, None, now);
      var stored := ApplyPatch(r.value.battle, SubmitPatch(None, 0, r.value.architecture, now));
      Countdown(0, r.Some?) == AutoSubmit &&
      stored.id == r.value.battle.id && stored.status == Completed && stored.timeSpent == Some(0)
  {
  }

  /** The resume effect, waiting for the challenge: a battle is taken up only once the challenge
      has loaded, so a taken-up battle with a start time always has its timer set from the time
      limit and the clock. */
  function Resume(userBattles: seq<Battle>, challengeId: int, challenge: Option<Schema.Challenge>, now: int)
    : (r: Option<Resumed>)
    ensures r.Some? <==> challenge.Some? && FindActiveBattle(userBattles, challengeId).Some?
    ensures r.Some? ==> r.value.battle == FindActiveBattle(userBattles, challengeId).value
    ensures r.Some? ==> r.value.battle.challengeId == challengeId && r.value.battle.status == Active
    ensures r.Some? && r.value.battle.startedAt.Some? ==>
      r.value.timeLeft == Some(RemainingSeconds(challenge.value.timeLimit, r.value.battle.startedAt.value, now))
    ensures r.Some? ==> r.value.architecture == r.value.battle.architecture
  {
    if challenge.None? then None else ResumeAsWritten(userBattles, challengeId, challenge, now)
  }

  /* ----------------------------------------------------------- countdown */

  /** What one run of the countdown effect does. */
  datatype CountdownStep = Decrement | AutoSubmit | Idle

  /** The countdown effect: tick while time is left; at exactly 0, submit if a battle is current. */
  function Countdown(timeLeft: int, hasBattle: bool): (step: CountdownStep)
    ensures step == Decrement <==> timeLeft > 0
    ensures step == AutoSubmit <==> timeLeft == 0 && hasBattle
  {
    if timeLeft > 0 then Decrement
    else if timeLeft == 0 && hasBattle then AutoSubmit
    else Idle
  }

  /** The update handleSubmit sends: COMPLETED now, with the time spent, the design and its score.
      It sets every column the page knows of, so nothing of the battle's earlier state survives. */
  function SubmitPatch(challenge: Option<Schema.Challenge>, timeLeft: int, architecture: Option<Architecture>, now: int)
    : (p: BattlePatch)
    ensures p.status.SetTo? && p.completedAt.SetTo? && p.timeSpent.SetTo? && p.score.SetTo? && p.architecture.SetTo?
    ensures p.status.value == Completed && p.completedAt.value == Some(now) && p.architecture.value == architecture
    ensures p.timeSpent.value.Some? && p.score.value.Some? && p.score.value.value >= 0
    ensures challenge.Some? ==> p.timeSpent.value.value + timeLeft == challenge.value.timeLimit * 60
    ensures architecture.None? ==> p.score.value.value == 0
  {
    BattlePatch(
      status := SetTo(Completed),
      completedAt := SetTo(Some(now)),
      timeSpent := SetTo(Some(TimeSpent(challenge, timeLeft))),
      score := SetTo(Some(CalculateScore(architecture, timeLeft))),
      architecture := SetTo(architecture))
  }

  /** The update handleSave sends: the design only; status, times and score are left alone. */
  function SavePatch(architecture: Architecture): (p: BattlePatch)
    ensures p.status.Keep? && p.completedAt.Keep? && p.timeSpent.Keep? && p.score.Keep?
    ensures p.architecture == SetTo(Some(architecture))
  {
    BattlePatch(Keep, Keep, Keep, Keep, SetTo(Some(architecture)))
  }

  /** A submitted battle is COMPLETED; its time spent and the time left add up to the limit and
      its score is never negative. */
  lemma SubmitCompletesBattle(b: Battle, c: Schema.Challenge, timeLeft: int, architecture: Option<Architecture>, now: int)
    requires 0 <= timeLeft <= c.timeLimit * 60
    ensures var r := ApplyPatch(b, SubmitPatch(Some(c), timeLeft, architecture, now));
      && r.id == b.id && r.status == Completed && r.completedAt == Some(now)
      && r.timeSpent.Some? && r.timeSpent.value + timeLeft == c.timeLimit * 60 && r.timeSpent.value >= 0
      && r.score.Some? && r.score.value >= 0
  {
  }

  /** One PATCH /api/battles/:id request. */
  datatype BattleRequest = BattleRequest(battleId: int, patch: BattlePatch)

  /* ------------------------------------------------------------ the page */

  /** The page's state: the two query results, the React state hooks, and the requests sent. */
  class ChallengePage {
    const challengeId: int
    var challenge: Option<Schema.Challenge>
    var userBattles: seq<Battle>
    var timeLeft: int
    var architecture: Option<Architecture>
    var currentBattle: Option<Battle>
    var requests: seq<BattleRequest>

    constructor (challengeId: int)
      ensures this.challengeId == challengeId
      ensures challenge.None? && userBattles == []
      ensures timeLeft == 0 && architecture.None? && currentBattle.None? && requests == []
    {
      this.challengeId := challengeId;
      challenge, userBattles := None, [];
      timeLeft, architecture, currentBattle, requests := 0, None, None, [];
    }

    /** What the resume effect does with the lookup's outcome: set the battle, then the timer and
        the design where the outcome has them; with no outcome nothing changes. */
    method TakeUp(r: Option<Resumed>)
      modifies this`currentBattle, this`timeLeft, this`architecture
      ensures currentBattle == (if r.Some? then Some(r.value.battle) else old(currentBattle))
      ensures timeLeft == (if r.Some? && r.value.timeLeft.Some? then r.value.timeLeft.value else old(timeLeft))
      ensures architecture == (if r.Some? && r.value.architecture.Some? then r.value.architecture else old(architecture))
    {
      if r.Some? {
        currentBattle := Some(r.value.battle);
        if r.value.timeLeft.Some? {
          timeLeft := r.value.timeLeft.value;
        }
        if r.value.architecture.Some? {
          architecture := r.value.architecture;
        }
      }
    }

    /** The resume effect, run whenever the battles list or the challenge changes. */
    method ResumeEffect(now: int)
      modifies this
      ensures var r := Resume(userBattles, challengeId, challenge, now);
        && currentBattle == (if r.Some? then Some(r.value.battle) else old(currentBattle))
        && timeLeft == (if r.Some? && r.value.timeLeft.Some? then r.value.timeLeft.value else old(timeLeft))
        && architecture == (if r.Some? && r.value.architecture.Some? then r.value.architecture else old(architecture))
      ensures challenge == old(challenge) && userBattles == old(userBattles) && requests == old(requests)
      ensures old(timeLeft) >= 0 ==> timeLeft >= 0
    {
      TakeUp(Resume(userBattles, challengeId, challenge, now));
    }

    /** The resume effect as the page writes it, without waiting for the challenge. */
    method ResumeEffectAsWritten(now: int)
      modifies this
      ensures var r := ResumeAsWritten(userBattles, challengeId, challenge, now);
        && currentBattle == (if r.Some? then Some(r.value.battle) else old(currentBattle))
        && timeLeft == (if r.Some? && r.value.timeLeft.Some? then r.value.timeLeft.value else old(timeLeft))
        && architecture == (if r.Some? && r.value.architecture.Some? then r.value.architecture else old(architecture))
      ensures challenge == old(challenge) && userBattles == old(userBattles) && requests == old(requests)
    {
      TakeUp(ResumeAsWritten(userBattles, challengeId, challenge, now));
    }

    /** The challenge query resolves; the resume effect runs again. */
    method ChallengeLoaded(c: Schema.Challenge, now: int)
      modifies this
      ensures challenge == Some(c) && userBattles == old(userBattles) && requests == old(requests)
      ensures var r := Resume(userBattles, challengeId, Some(c), now);
        && currentBattle == (if r.Some? then Some(r.value.battle) else old(currentBattle))
        && timeLeft == (if r.Some? && r.value.timeLeft.Some? then r.value.timeLeft.value else old(timeLeft))
        && architecture == (if r.Some? && r.value.architecture.Some? then r.value.architecture else old(architecture))
      ensures old(timeLeft) >= 0 ==> timeLeft >= 0
    {
      challenge := Some(c);
      ResumeEffect(now);
    }

    /** The user's battles query resolves (or is refetched); the resume effect runs again. */
    method UserBattlesLoaded(battles: seq<Battle>, now: int)
      modifies this
      ensures userBattles == battles && challenge == old(challenge) && requests == old(requests)
      ensures var r := Resume(battles, challengeId, challenge, now);
        && currentBattle == (if r.Some? then Some(r.value.battle) else old(currentBattle))
        && timeLeft == (if r.Some? && r.value.timeLeft.Some? then r.value.timeLeft.value else old(timeLeft))
        && architecture == (if r.Some? && r.value.architecture.Some? then r.value.architecture else old(architecture))
      ensures old(timeLeft) >= 0 ==> timeLeft >= 0
    {
      userBattles := battles;
      ResumeEffect(now);
    }

    /** The start mutation succeeds with the new battle: it becomes current and the timer is set
        to the whole time limit in seconds. */
    method StartBattleSucceeded(battle: Battle)
      modifies this
      ensures currentBattle == Some(battle)
      ensures timeLeft == if challenge.Some? then challenge.value.timeLimit * 60 else old(timeLeft)
      ensures challenge == old(challenge) && userBattles == old(userBattles)
      ensures architecture == old(architecture) && requests == old(requests)
    {
      currentBattle := Some(battle);
      if challenge.Some? {
        timeLeft := challenge.value.timeLimit * 60;
      }
    }

    /** The design canvas reports a new design. */
    method SetArchitecture(a: Option<Architecture>)
      modifies this`architecture
      ensures architecture == a
    {
      architecture := a;
    }

    /** handleSave: with a current battle and a design, sends the design; otherwise nothing. */
    method HandleSave()
      modifies this`requests
      ensures currentBattle.Some? && architecture.Some? ==>
        requests == old(requests) + [BattleRequest(currentBattle.value.id, SavePatch(architecture.value))]
      ensures currentBattle.None? || architecture.None? ==> requests == old(requests)
    {
      if currentBattle.Some? && architecture.Some? {
        requests := requests + [BattleRequest(currentBattle.value.id, SavePatch(architecture.value))];
      }
    }

    /** handleSubmit: with a current battle, sends it as COMPLETED with the time spent and the
        score; otherwise nothing. */
    method HandleSubmit(now: int)
      modifies this`requests
      ensures currentBattle.Some? ==>
        requests == old(requests) + [BattleRequest(currentBattle.value.id, SubmitPatch(challenge, timeLeft, architecture, now))]
      ensures currentBattle.None? ==> requests == old(requests)
    {
      if currentBattle.Some? {
        requests := requests + [BattleRequest(currentBattle.value.id, SubmitPatch(challenge, timeLeft, architecture, now))];
      }
    }

    /** One run of the countdown effect: a second passes while time is left; at 0 with a current
        battle the page submits it. The timer goes down by exactly one and never below zero. */
    method Tick(now: int)
      modifies this`timeLeft, this`requests
      ensures old(timeLeft) > 0 ==> timeLeft == old(timeLeft) - 1 && requests == old(requests)
      ensures old(timeLeft) == 0 && currentBattle.Some? ==>
        timeLeft == 0 &&
        requests == old(requests) + [BattleRequest(currentBattle.value.id, SubmitPatch(challenge, 0, architecture, now))]
      ensures old(timeLeft) < 0 || (old(timeLeft) == 0 && currentBattle.None?) ==>
        timeLeft == old(timeLeft) && requests == old(requests)
      ensures old(timeLeft) >= 0 ==> timeLeft >= 0
    {
      match Countdown(timeLeft, currentBattle.Some?)
      case Decrement =>
        timeLeft := timeLeft - 1;
      case AutoSubmit =>
        HandleSubmit(now);
      case Idle =>
    }
  }

  /** The as-written race traced through the page: the user's battles arrive with an ACTIVE
      battle for this challenge before the challenge does, the resume effect takes the battle up
      with the timer still at 0, and the countdown's first run submits it with no time spent. */
  method ReloadBeforeChallengeLoads(challengeId: int, battles: seq<Battle>, now: int)
    returns (page: ChallengePage)
    requires FindActiveBattle(battles, challengeId).Some?
    ensures var b := FindActiveBattle(battles, challengeId).value;
      && page.challenge.None? && page.currentBattle == Some(b) && page.timeLeft == 0
      && page.requests == [BattleRequest(b.id, SubmitPatch(None, 0, b.architecture, now))]
      && ApplyPatch(b, page.requests[0].patch).timeSpent == Some(0)
  {
    page := new ChallengePage(challengeId);
    page.userBattles := battles;
    page.ResumeEffectAsWritten(now);
    page.Tick(now);
  }
}
