/** Players and teams (internal/models/players.go). */
module Players {

  import opened Wrappers
  import opened GoTime
  import opened Uuid

  /** Go's `Team` is a string type; the model admits only its two declared constants. */
  datatype Team = Red | Black

  /** The string value of each `Team` constant. */
  function TeamName(t: Team): string
  {
    match t
    case Red => "red"
    case Black => "black"
  }

  /**
   * A player. `team` and `lastMoveTime` are nil-able pointers in Go:
   * a player need not be on a team and need not have moved yet.
   */
  datatype Player = Player(
    id: Uuid,
    username: string,
    team: Option<Team>,
    createdAt: Instant,
    lastMoveTime: Option<Instant>,
    totalMoves: Int64)

  /**
   * `CanMakeMove(cooldownSeconds)`, with the clock reading `time.Now()` made
   * the parameter `now`. A player that never moved may move; otherwise the
   * time since the last move, a saturated `Duration`, must be at least the
   * cooldown, `time.Duration(cooldownSeconds) * time.Second`, which wraps on
   * 64-bit overflow.
   */
  predicate CanMakeMove(p: Player, cooldownSeconds: Int64, now: Instant)
  {
    match p.lastMoveTime
    case None => true
    case Some(last) => Sub(now, last) >= Seconds(cooldownSeconds)
  }

  /** `IsOnTeam()`. */
  predicate IsOnTeam(p: Player)
  {
    p.team.Some?
  }

  /** A player with no recorded move may always move, whatever the cooldown and the time. */
  lemma NeverMovedMayMove(p: Player, cooldownSeconds: Int64, now: Instant)
    requires p.lastMoveTime.None?
    ensures CanMakeMove(p, cooldownSeconds, now)
  {
  }

  /**
   * For a cooldown whose nanosecond count fits in 64 bits, a player who moved
   * at `last` may move at `now` exactly when at least the cooldown has passed;
   * an elapsed time equal to the cooldown is enough.
   */
  lemma CanMakeMoveExactly(p: Player, cooldownSeconds: Int64, now: Instant)
    requires p.lastMoveTime.Some?
    requires -MaxExactSeconds <= cooldownSeconds <= MaxExactSeconds
    ensures CanMakeMove(p, cooldownSeconds, now)
        <==> now - p.lastMoveTime.value >= cooldownSeconds * Second
  {
    ExactSecondsInRange(cooldownSeconds);
    SubCompare(now, p.lastMoveTime.value, Seconds(cooldownSeconds));
  }

  /** Once a player may move, they may move at every later time. */
  lemma CanMakeMoveLater(p: Player, cooldownSeconds: Int64, now: Instant, now': Instant)
    requires now <= now'
    requires CanMakeMove(p, cooldownSeconds, now)
    ensures CanMakeMove(p, cooldownSeconds, now')
  {
    if p.lastMoveTime.Some? {
      SubMonotone(now, now', p.lastMoveTime.value);
    }
  }

  /** Shortening the cooldown never takes away the right to move (for cooldowns that do not overflow). */
  lemma CanMakeMoveShorterCooldown(p: Player, c: Int64, c': Int64, now: Instant)
    requires -MaxExactSeconds <= c' <= c <= MaxExactSeconds
    requires CanMakeMove(p, c, now)
    ensures CanMakeMove(p, c', now)
  {
    if p.lastMoveTime.Some? {
      CanMakeMoveExactly(p, c, now);
      CanMakeMoveExactly(p, c', now);
    }
  }

  /** With no cooldown (or a negative one) a player may move as soon as the clock has not gone back. */
  lemma NoCooldownMayMove(p: Player, cooldownSeconds: Int64, now: Instant)
    requires -MaxExactSeconds <= cooldownSeconds <= 0
    requires p.lastMoveTime.Some? ==> now >= p.lastMoveTime.value
    ensures CanMakeMove(p, cooldownSeconds, now)
  {
    if p.lastMoveTime.Some? {
      CanMakeMoveExactly(p, cooldownSeconds, now);
    }
  }

  /**
   * The cooldown's 64-bit product wraps: a cooldown of 9223372037 seconds
   * becomes a negative `Duration`, and a player may move again at the very
   * instant of their last move.
   */
  lemma HugeCooldownWraps(p: Player, last: Instant)
    requires p.lastMoveTime == Some(last)
    ensures Seconds(9223372037) < 0
    ensures CanMakeMove(p, 9223372037, last)
  {
    assert Seconds(9223372037) == 9223372037 * Second - TwoTo64;
  }

  /**
   * The wrap also goes the other way: a cooldown of -9223372037 seconds
   * becomes a positive `Duration`, so a player who moved at `last` may not
   * move again at `last`, although the cooldown is negative.
   */
  lemma NegativeCooldownWraps(p: Player, last: Instant)
    requires p.lastMoveTime == Some(last)
    ensures Seconds(-9223372037) > 0
    ensures !CanMakeMove(p, -9223372037, last)
  {
    assert Seconds(-9223372037) == -9223372037 * Second + TwoTo64;
  }

  /** A player is on a team exactly when a team is recorded, whichever it is. */
  lemma IsOnTeamIffTeam(p: Player)
    ensures IsOnTeam(p) <==> (p.team == Some(Red) || p.team == Some(Black))
  {
    if p.team.Some? {
      match p.team.value
      case Red =>
      case Black =>
    }
  }

  /** The two team constants are different strings. */
  lemma TeamNamesDistinct(t: Team, t': Team)
    ensures TeamName(t) == TeamName(t') <==> t == t'
  {
  }
}
