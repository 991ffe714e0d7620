/** The dog platformer's scene rules: the score, the three-minute clock,
    the enemy contact rule with its spawn grace period, and the two
    terminal states, game over and won, that pause play and stop the
    clock. */
module DogScene {
  const LevelDuration: int := 180
  const InvincibilityDuration: int := 3000
  const EnemyCount: nat := 20
  const StompBounce: real := -300.0

  /** What an enemy contact does to the scene. */
  datatype Contact = Ignored | Stomp | Hurt

  /** The contact rule: nothing during the grace period after the scene
      starts; a stomp when the player falls while above the enemy's
      middle; otherwise the player is hurt. */
  function ContactOutcome(elapsedMs: int, playerVy: real, playerY: real, enemyY: real, enemyHeight: real): (c: Contact)
    ensures c == Ignored <==> elapsedMs < InvincibilityDuration
    ensures c == Stomp ==> playerVy > 0.0
    ensures elapsedMs >= InvincibilityDuration && playerVy <= 0.0 ==> c == Hurt
    ensures elapsedMs >= InvincibilityDuration && playerY >= enemyY - enemyHeight / 2.0 ==> c == Hurt
    ensures elapsedMs >= InvincibilityDuration && playerVy > 0.0 && playerY < enemyY - enemyHeight / 2.0 ==> c == Stomp
  {
    if elapsedMs < InvincibilityDuration then Ignored
    else if playerVy > 0.0 && playerY < enemyY - enemyHeight * 0.5 then Stomp
    else Hurt
  }

  /** The numbers `0 .. n - 1`: the enemies `spawnEnemies` creates. */
  function Numbers(n: nat): (r: set<nat>)
    ensures forall i: nat :: i in r <==> i < n
  {
    if n == 0 then {} else Numbers(n - 1) + {n - 1}
  }

  /** The enemies of a fresh level. */
  function AllEnemies(): (r: set<nat>)
    ensures forall i: nat :: i in r <==> i < EnemyCount
  {
    Numbers(EnemyCount)
  }

  class Scene {
    var score: int
    var timeLeft: int
    var isGameOver: bool
    var isGameWon: bool
    var spawnTime: int
    var playerVelocityY: real
    var playerDead: bool
    var physicsPaused: bool
    var timerRunning: bool
    /** The enemies still in play, by number. */
    var enemies: set<nat>

    /** The score counts stomps; the clock runs and there is time left
        exactly while neither end has come; play is paused exactly after
        an end; the player is dead exactly after a game over. */
    predicate Valid()
      reads this
    {
      Consistent() && (!isGameOver && !isGameWon ==> timeLeft > 0)
    }

    /** `Valid` apart from the time left, as it is between the clock's
        last tick and the game over that follows. */
    predicate Consistent()
      reads this
    {
      score >= 0 && score % 100 == 0 && timeLeft <= LevelDuration &&
      (timerRunning <==> !isGameOver && !isGameWon) &&
      (physicsPaused <==> isGameOver || isGameWon) &&
      (playerDead <==> isGameOver)
    }

    /** The scene as `create` builds it at time `now`. */
    constructor (now: int)
      ensures Valid() && Fresh(now)
    {
      score := 0;
      timeLeft := LevelDuration;
      isGameOver := false;
      isGameWon := false;
      spawnTime := now;
      playerVelocityY := 0.0;
      playerDead := false;
      physicsPaused := false;
      timerRunning := true;
      enemies := AllEnemies();
    }

    /** The end of a lost game; a second call changes nothing. */
    method GameOver()
      requires Consistent()
      modifies this
      ensures Valid() && isGameOver && playerDead && physicsPaused && !timerRunning
      ensures old(isGameOver) ==> unchanged(this)
      ensures isGameWon == old(isGameWon) && score == old(score) && timeLeft == old(timeLeft)
      ensures enemies == old(enemies) && playerVelocityY == old(playerVelocityY) && spawnTime == old(spawnTime)
    {
      if isGameOver {
        return;
      }
      isGameOver := true;
      physicsPaused := true;
      playerDead := true;
      timerRunning := false;
    }

    /** Reaching the goal; a second call changes nothing. */
    method WinGame()
      requires Valid()
      modifies this
      ensures Valid() && isGameWon && physicsPaused && !timerRunning
      ensures old(isGameWon) ==> unchanged(this)
      ensures isGameOver == old(isGameOver) && score == old(score) && timeLeft == old(timeLeft)
      ensures enemies == old(enemies) && playerVelocityY == old(playerVelocityY) && spawnTime == old(spawnTime)
    {
      if isGameWon {
        return;
      }
      isGameWon := true;
      physicsPaused := true;
      timerRunning := false;
    }

    /** The once-a-second clock: nothing after an end; otherwise a second
        less, and the game is over when none is left. */
    method OnTimerTick()
      requires Valid()
      modifies this
      ensures Valid()
      ensures old(isGameOver) || old(isGameWon) ==> unchanged(this)
      ensures !old(isGameOver) && !old(isGameWon) ==>
                timeLeft == old(timeLeft) - 1 && isGameWon == old(isGameWon) &&
                (isGameOver <==> timeLeft <= 0) && score == old(score) &&
                enemies == old(enemies) && spawnTime == old(spawnTime) &&
                playerVelocityY == old(playerVelocityY)
    {
      if isGameOver || isGameWon {
        return;
      }
      timeLeft := timeLeft - 1;
      if timeLeft <= 0 {
        GameOver();
      }
    }

    /** The player touching enemy `enemy` at time `now`. */
    method HandleEnemyCollision(now: int, enemy: nat, playerY: real, enemyY: real, enemyHeight: real)
      requires Valid()
      modifies this
      ensures Valid()
      ensures var c := ContactOutcome(now - spawnTime, old(playerVelocityY), playerY, enemyY, enemyHeight);
              (c == Ignored ==> unchanged(this)) &&
              (c == Stomp ==>
                 enemies == old(enemies) - {enemy} && playerVelocityY == StompBounce &&
                 score == old(score) + 100 && isGameOver == old(isGameOver) && isGameWon == old(isGameWon) &&
                 timeLeft == old(timeLeft) && spawnTime == old(spawnTime)) &&
              (c == Hurt ==>
                 isGameOver && enemies == old(enemies) && score == old(score) && isGameWon == old(isGameWon) &&
                 timeLeft == old(timeLeft) && spawnTime == old(spawnTime) &&
                 playerVelocityY == old(playerVelocityY))
    {
      if now - spawnTime < InvincibilityDuration {
        return;
      }
      if playerVelocityY > 0.0 && playerY < enemyY - enemyHeight * 0.5 {
        enemies := enemies - {enemy};
        playerVelocityY := StompBounce;
        score := score + 100;
      } else {
        GameOver();
      }
    }

    /** The per-frame clean-up: enemies that fell below the height 700,
        as `enemyY` places them, leave play. */
    method RemoveFallen(enemyY: nat -> real)
      requires Valid()
      modifies this
      ensures Valid()
      ensures enemies == set e | e in old(enemies) && enemyY(e) <= 700.0
      ensures score == old(score) && timeLeft == old(timeLeft) && isGameOver == old(isGameOver) && isGameWon == old(isGameWon)
      ensures spawnTime == old(spawnTime) && playerVelocityY == old(playerVelocityY)
    {
      enemies := set e | e in enemies && enemyY(e) <= 700.0;
    }

    /** The space key: after an end the scene starts again at `now`;
        during play it does nothing. */
    method RestartKey(now: int)
      requires Valid()
      modifies this
      ensures Valid()
      ensures !old(isGameOver) && !old(isGameWon) ==> unchanged(this)
      ensures old(isGameOver) || old(isGameWon) ==> Fresh(now)
    {
      if isGameOver || isGameWon {
        Restart(now);
      }
    }

    /** The state `create` leaves at time `now`. */
    predicate Fresh(now: int)
      reads this
    {
      score == 0 && timeLeft == LevelDuration && spawnTime == now && !isGameOver && !isGameWon &&
      !playerDead && !physicsPaused && timerRunning && enemies == AllEnemies()
    }

    /** `scene.restart()`, with the two end flags cleared after it. */
    method Restart(now: int)
      modifies this
      ensures Valid() && Fresh(now)
    {
      score, timeLeft, spawnTime, playerVelocityY := 0, LevelDuration, now, 0.0;
      playerDead, physicsPaused, timerRunning := false, false, true;
      enemies := AllEnemies();
      isGameOver, isGameWon := false, false;
    }
  }
}
