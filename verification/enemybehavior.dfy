/** The melee enemy (`EnemyBehavior`): every frame it targets the nearest
    player, starts chasing once that player comes within detection range and
    keeps chasing while any player exists, walks toward the target until in
    melee range, and then attacks whenever the cooldown has elapsed. */
module EnemyBehavior {
  import opened Common
  import opened Geometry

  /** `float.MaxValue`, the starting "nearest distance" of the search. */
  const FloatMaxValue: real := 340282346638528859811704183484516925440.0

  /** The inspector settings. */
  datatype Config = Config(detectionRange: real, meleeRange: real, moveSpeed: real,
                           attackDamage: int, attackCooldown: real)

  datatype Enemy = Enemy(position: Vec3, isChasing: bool, lastAttackTime: real)

  /** A Player-tagged object: its position and its `PlayerHealth`
      component, if it has one. */
  datatype PlayerRef = PlayerRef(position: Vec3, health: Option<nat>)

  /** A `TakeDamage(amount)` call on a `PlayerHealth` component. */
  datatype Damage = Damage(health: nat, amount: int)

  /** The outcome of one frame: the new state, whether `AttackPlayer` ran,
      and the damage it dealt. */
  datatype Step = Step(enemy: Enemy, attacked: bool, damage: Option<Damage>)

  /** The cooldown test of `Update`: enough time has passed since the last
      attack. */
  predicate CooledDown(e: Enemy, cfg: Config, time: real)
  {
    time - e.lastAttackTime >= cfg.attackCooldown
  }

  /** `Start`: `lastAttackTime = -attackCooldown`. */
  function Start(position: Vec3, cfg: Config): (e: Enemy)
    ensures !e.isChasing && e.position == position
    ensures forall time: real :: CooledDown(e, cfg, time) <==> time >= 0.0
  {
    Enemy(position, false, -cfg.attackCooldown)
  }

  /** The loop of `FindNearestPlayer` over the distances to the players:
      the index of a nearest one, the earliest on ties because the
      comparison is strict, and null when there are no players (or none
      nearer than `float.MaxValue`). */
  function Nearest(ds: seq<real>): (r: Option<nat>)
    ensures r.Some? ==> r.value < |ds| && ds[r.value] < FloatMaxValue
    ensures r.Some? ==> forall j :: 0 <= j < |ds| ==> ds[r.value] <= ds[j]
    ensures r.Some? ==> forall j :: 0 <= j < r.value ==> ds[r.value] < ds[j]
    ensures r.None? <==> forall j :: 0 <= j < |ds| ==> ds[j] >= FloatMaxValue
    decreases |ds|
  {
    if |ds| == 0 then None
    else
      var prev := Nearest(ds[..|ds| - 1]);
      var nearestDistance := if prev.Some? then ds[prev.value] else FloatMaxValue;
      if ds[|ds| - 1] < nearestDistance then Some(|ds| - 1) else prev
  }

  function Distances(e: Enemy, players: seq<PlayerRef>, m: Metric): (ds: seq<real>)
    ensures |ds| == |players|
    ensures forall i :: 0 <= i < |ds| ==> ds[i] == m.distance(e.position, players[i].position)
  {
    seq(|players|, i requires 0 <= i < |players| => m.distance(e.position, players[i].position))
  }

  /** `Update`, given the players the tag search finds this frame, the game
      time and the frame length. */
  function Update(e: Enemy, cfg: Config, players: seq<PlayerRef>, time: real, deltaTime: real,
                  m: Metric): (s: Step)
    ensures var target := Nearest(Distances(e, players, m));
      target.None? ==> s == Step(e.(isChasing := false), false, None)
    ensures var target := Nearest(Distances(e, players, m));
      target.Some? ==>
        var d := m.distance(e.position, players[target.value].position);
        && (s.enemy.isChasing <==> e.isChasing || d <= cfg.detectionRange)
        && (s.enemy.position != e.position ==> s.enemy.isChasing && d > cfg.meleeRange)
        && (s.enemy.isChasing && d > cfg.meleeRange ==>
              s.enemy.position == StepToward(m, e.position, players[target.value].position, cfg.moveSpeed * deltaTime))
        && (s.attacked <==> s.enemy.isChasing && d <= cfg.meleeRange && CooledDown(e, cfg, time))
        && (s.damage.Some? <==> s.attacked && players[target.value].health.Some?)
        && (s.damage.Some? ==> s.damage.value == Damage(players[target.value].health.value, cfg.attackDamage))
    ensures s.attacked ==> s.enemy.lastAttackTime == time
    ensures !s.attacked ==> s.enemy.lastAttackTime == e.lastAttackTime && s.damage.None?
  {
    match Nearest(Distances(e, players, m))
    case None => Step(e.(isChasing := false), false, None)
    case Some(i) =>
      var target := players[i];
      var distanceToPlayer := m.distance(e.position, target.position);
      var chasing := e.isChasing || distanceToPlayer <= cfg.detectionRange;
      var e1 := e.(isChasing := chasing);
      if !chasing then Step(e1, false, None)
      else if distanceToPlayer > cfg.meleeRange then
        Step(e1.(position := StepToward(m, e.position, target.position, cfg.moveSpeed * deltaTime)), false, None)
      else if CooledDown(e, cfg, time) then
        var damage := if target.health.Some? then Some(Damage(target.health.value, cfg.attackDamage)) else None;
        Step(e1.(lastAttackTime := time), true, damage)
      else Step(e1, false, None)
  }

  /** After an attack at `time`, the cooldown test passes again exactly from
      `time + attackCooldown` on. */
  lemma CooldownAfterAttack(e: Enemy, cfg: Config, players: seq<PlayerRef>, time: real, deltaTime: real,
                            m: Metric, later: real)
    requires Update(e, cfg, players, time, deltaTime, m).attacked
    ensures CooledDown(Update(e, cfg, players, time, deltaTime, m).enemy, cfg, later)
            <==> later >= time + cfg.attackCooldown
  {
  }

  /** Once chasing, the enemy keeps chasing for as long as some player is
      found, however far away it is. */
  lemma ChaseLatches(e: Enemy, cfg: Config, players: seq<PlayerRef>, time: real, deltaTime: real, m: Metric)
    requires e.isChasing
    requires exists j :: 0 <= j < |players| && m.distance(e.position, players[j].position) < FloatMaxValue
    ensures Update(e, cfg, players, time, deltaTime, m).enemy.isChasing
  {
  }

  /** A freshly started enemy may strike at once: a player already in
      melee and detection range is attacked at any time from zero on. */
  lemma FreshEnemyStrikesAtOnce(position: Vec3, cfg: Config, players: seq<PlayerRef>, time: real,
                                deltaTime: real, m: Metric, i: nat)
    requires i < |players|
    requires forall j :: 0 <= j < |players| ==>
      m.distance(position, players[i].position) <= m.distance(position, players[j].position)
    requires m.distance(position, players[i].position) <= cfg.meleeRange
    requires m.distance(position, players[i].position) <= cfg.detectionRange
    requires m.distance(position, players[i].position) < FloatMaxValue
    requires time >= 0.0
    ensures Update(Start(position, cfg), cfg, players, time, deltaTime, m).attacked
  {
  }

  /** One frame of the game: the players found, the time and the frame
      length. */
  datatype Tick = Tick(players: seq<PlayerRef>, time: real, deltaTime: real)

  /** The times at which the enemy attacks over a run of frames. */
  function AttackTimes(e: Enemy, cfg: Config, ticks: seq<Tick>, m: Metric): seq<real>
    decreases |ticks|
  {
    if |ticks| == 0 then []
    else
      var s := Update(e, cfg, ticks[0].players, ticks[0].time, ticks[0].deltaTime, m);
      (if s.attacked then [ticks[0].time] else []) + AttackTimes(s.enemy, cfg, ticks[1..], m)
  }

  /** Attacks are spaced by at least the cooldown: the first comes at least
      `attackCooldown` after `lastAttackTime`, and each later one at least
      `attackCooldown` after the one before, whether or not it dealt damage. */
  lemma {:induction false} AttacksRespectCooldown(e: Enemy, cfg: Config, ticks: seq<Tick>, m: Metric)
    ensures var ts := AttackTimes(e, cfg, ticks, m);
            && (|ts| > 0 ==> ts[0] - e.lastAttackTime >= cfg.attackCooldown)
            && (forall k :: 0 < k < |ts| ==> ts[k] - ts[k - 1] >= cfg.attackCooldown)
    decreases |ticks|
  {
    if |ticks| > 0 {
      var s := Update(e, cfg, ticks[0].players, ticks[0].time, ticks[0].deltaTime, m);
      AttacksRespectCooldown(s.enemy, cfg, ticks[1..], m);
      var rest := AttackTimes(s.enemy, cfg, ticks[1..], m);
      if s.attacked {
        var ts := [ticks[0].time] + rest;
        assert ts[1..] == rest;
      }
    }
  }
}
