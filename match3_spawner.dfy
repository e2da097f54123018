/**
 * The match-3 spawn scheduler (Game/Match3/Match3Spawner.cs): two timers,
 * one for enemies and one for pickups, each of which queues one spawn when
 * it reaches its period, plus a live-enemy counter that caps enemy spawns.
 *
 * Scenes, spawn points, the spawn tables' random entries, the random choice
 * of a spawn point and its `CanSpawn` test are abstract: scenes and spawn
 * points are plain identities, the random entries are parameters, the
 * choice is a nondeterministic pick and `CanSpawn` is the parameter
 * `canSpawn`. What a frame does to the scene tree is reported as a trace
 * of `Placement`s.
 */
module Match3Spawners {
  import W = Wrappers
  import opened Lists

  /** A `PackedScene` a spawn table hands out. */
  datatype Scene = Scene(id: nat)

  /** One `EnemySpawner` node of the level. */
  datatype Spawner = Spawner(id: nat)

  /** What one queued spawn became: spawned at a spawn point, or put on the pending queue. */
  datatype Placement = Spawned(spawner: Spawner, scene: Scene) | Queued(scene: Scene)

  /** A placement is one the scheduler may make for `scene`: at an available spawn point, or queued when there is none. */
  predicate Placed(spawners: seq<Spawner>, canSpawn: Spawner -> bool, scene: Scene, p: Placement)
  {
    match p
    case Spawned(s, sc) => sc == scene && s in spawners && canSpawn(s)
    case Queued(sc) => sc == scene && forall s :: s in spawners ==> !canSpawn(s)
  }

  /** The scenes of a trace that went to the pending queue, in order. */
  function QueuedScenes(placed: seq<Placement>): seq<Scene>
  {
    if placed == [] then []
    else (if placed[0].Queued? then [placed[0].scene] else []) + QueuedScenes(placed[1..])
  }

  lemma {:induction false} QueuedScenesAppend(a: seq<Placement>, b: seq<Placement>)
    ensures QueuedScenes(a + b) == QueuedScenes(a) + QueuedScenes(b)
  {
    if a != [] {
      QueuedScenesAppend(a[1..], b);
      assert (a + b)[1..] == a[1..] + b;
    } else {
      assert a + b == b;
    }
  }

  /** A timer after one frame: its new value and whether it went off. */
  datatype Tick = Tick(time: real, fires: bool)

  /** A timer advanced by `dt`: it goes off once it reaches `period` and then loses one period. */
  function Advance(timer: real, dt: real, period: real): (r: Tick)
    ensures r.fires <==> timer + dt >= period
    ensures r.time == timer + dt - (if r.fires then period else 0.0)
  {
    var t := timer + dt;
    if t < period then Tick(t, false) else Tick(t - period, true)
  }

  /** A non-negative timer advanced by a non-negative step stays non-negative. */
  lemma AdvanceKeepsNonNegative(timer: real, dt: real, period: real)
    requires timer >= 0.0 && dt >= 0.0
    ensures Advance(timer, dt, period).time >= 0.0
  {
  }

  /**
   * A timer below its period, advanced by at most one period, stays below
   * it: one spawn per frame keeps up with any step no longer than the period.
   */
  lemma AdvanceStaysBelowPeriod(timer: real, dt: real, period: real)
    requires 0.0 <= timer < period && 0.0 <= dt <= period
    ensures 0.0 <= Advance(timer, dt, period).time < period
  {
  }

  /** The total of a sequence of frame steps. */
  function TotalTime(dts: seq<real>): real
    decreases |dts|
  {
    if dts == [] then 0.0 else dts[0] + TotalTime(dts[1..])
  }

  /** A timer run over several frames: its final value and how many times it went off. */
  function Run(timer: real, dts: seq<real>, period: real): (real, nat)
    decreases |dts|
  {
    if dts == [] then (timer, 0)
    else
      var tick := Advance(timer, dts[0], period);
      var rest := Run(tick.time, dts[1..], period);
      (rest.0, rest.1 + (if tick.fires then 1 else 0))
  }

  /**
   * Over frames of at most one period each, no spawn is lost: the timer goes
   * off once for every whole period of accumulated time, and what is left
   * stays below one period.
   */
  lemma {:induction false} RunFiresOncePerPeriod(timer: real, dts: seq<real>, period: real)
    requires 0.0 <= timer < period
    requires forall i :: 0 <= i < |dts| ==> 0.0 <= dts[i] <= period
    ensures 0.0 <= Run(timer, dts, period).0 < period
    ensures Run(timer, dts, period).0 + Run(timer, dts, period).1 as real * period == timer + TotalTime(dts)
    decreases |dts|
  {
    if dts != [] {
      var tick := Advance(timer, dts[0], period);
      AdvanceStaysBelowPeriod(timer, dts[0], period);
      RunFiresOncePerPeriod(tick.time, dts[1..], period);
      var rest := Run(tick.time, dts[1..], period);
      var k := if tick.fires then 1 else 0;
      assert (rest.1 + k) as real * period == rest.1 as real * period + k as real * period;
    }
  }

  class Match3Spawner {
    var enabled: bool
    var spawnMultiplier: real
    var spawnMultiplierIncrease: real
    var enemySpawnTime: real
    var maxEnemyCount: nat
    var currentEnemyCount: nat
    var otherSpawnTime: real
    var pendingSpawns: seq<Scene>
    var currentEnemySpawnTime: real
    var currentOtherSpawnTime: real
    var enemySpawners: seq<Spawner>

    /** The field initialisers, with the spawn points `_Ready` collects. */
    constructor (spawners: seq<Spawner>)
      ensures enabled && spawnMultiplier == 1.0 && spawnMultiplierIncrease == 0.01
      ensures enemySpawnTime == 10.0 && maxEnemyCount == 5 && currentEnemyCount == 0
      ensures otherSpawnTime == 15.0 && pendingSpawns == []
      ensures currentEnemySpawnTime == 0.0 && currentOtherSpawnTime == 0.0
      ensures enemySpawners == spawners
    {
      enabled := true;
      spawnMultiplier := 1.0;
      spawnMultiplierIncrease := 0.01;
      enemySpawnTime := 10.0;
      maxEnemyCount := 5;
      currentEnemyCount := 0;
      otherSpawnTime := 15.0;
      pendingSpawns := [];
      currentEnemySpawnTime := 0.0;
      currentOtherSpawnTime := 0.0;
      enemySpawners := spawners;
    }

    /**
     * `GetRandomAvailableSpawner`: draws spawn points at random from a copy
     * of the list, dropping each one that cannot spawn, at most once per
     * spawn point. Every draw is from a non-empty list; the result is an
     * available spawn point, or nothing exactly when none is available.
     */
    method GetRandomAvailableSpawner(canSpawn: Spawner -> bool) returns (r: W.Option<Spawner>, picks: nat)
      ensures picks <= |enemySpawners|
      ensures r.Some? ==> r.value in enemySpawners && canSpawn(r.value)
      ensures r.None? <==> forall s :: s in enemySpawners ==> !canSpawn(s)
      ensures r.None? ==> picks == |enemySpawners|
    {
      var pending := enemySpawners;
      picks := 0;
      for i := 0 to |enemySpawners|
        invariant picks == i
        invariant |pending| == |enemySpawners| - i
        invariant multiset(pending) <= multiset(enemySpawners)
        invariant forall s :: s in enemySpawners && s !in pending ==> !canSpawn(s)
      {
        assert pending[0] in pending;
        var chosen :| chosen in pending;
        picks := picks + 1;
        if canSpawn(chosen) {
          assert chosen in multiset(pending);
          return W.Some(chosen), picks;
        }
        RejectKeepsCandidates(enemySpawners, pending, chosen, canSpawn);
        pending := RemoveFirst(pending, chosen);
      }
      assert pending == [];
      return W.None, picks;
    }

    /** `QueueSpawn`: spawns at an available spawn point, or queues the scene when there is none. */
    method QueueSpawn(scene: Scene, canSpawn: Spawner -> bool) returns (p: Placement)
      modifies this`pendingSpawns
      ensures Placed(enemySpawners, canSpawn, scene, p)
      ensures pendingSpawns == old(pendingSpawns) + (if p.Queued? then [scene] else [])
    {
      var spawner, _ := GetRandomAvailableSpawner(canSpawn);
      if spawner.None? {
        pendingSpawns := pendingSpawns + [scene];
        return Queued(scene);
      }
      p := Spawned(spawner.value, scene);
    }

    /**
     * `QueueEnemySpawn`: counts the enemy first, whether it is spawned or
     * only queued, then places it as `QueueSpawn` does.
     */
    method QueueEnemySpawn(scene: Scene, canSpawn: Spawner -> bool) returns (p: Placement)
      modifies this`pendingSpawns, this`currentEnemyCount
      ensures currentEnemyCount == old(currentEnemyCount) + 1
      ensures Placed(enemySpawners, canSpawn, scene, p)
      ensures pendingSpawns == old(pendingSpawns) + (if p.Queued? then [scene] else [])
    {
      currentEnemyCount := currentEnemyCount + 1;
      p := QueueSpawn(scene, canSpawn);
    }

    /** The hook a spawned enemy runs when it leaves the tree: one enemy fewer, never below zero. */
    method EnemyExited()
      modifies this`currentEnemyCount
      ensures currentEnemyCount == if old(currentEnemyCount) > 0 then old(currentEnemyCount) - 1 else 0
      ensures currentEnemyCount <= old(currentEnemyCount)
    {
      if currentEnemyCount > 0 {
        currentEnemyCount := currentEnemyCount - 1;
      }
    }

    /**
     * `UpdateEnemySpawns`: frozen while the enemy count is at its maximum;
     * otherwise advances the enemy timer and, when it goes off, queues one
     * enemy from the table.
     */
    method UpdateEnemySpawns(deltaTime: real, entry: Scene, canSpawn: Spawner -> bool) returns (placed: seq<Placement>)
      modifies this`pendingSpawns, this`currentEnemyCount, this`currentEnemySpawnTime
      ensures old(currentEnemyCount) >= maxEnemyCount ==>
                placed == [] && currentEnemySpawnTime == old(currentEnemySpawnTime)
                && currentEnemyCount == old(currentEnemyCount) && pendingSpawns == old(pendingSpawns)
      ensures old(currentEnemyCount) < maxEnemyCount ==>
                var tick := Advance(old(currentEnemySpawnTime), deltaTime, enemySpawnTime);
                && currentEnemySpawnTime == tick.time
                && |placed| == (if tick.fires then 1 else 0)
                && currentEnemyCount == old(currentEnemyCount) + |placed|
                && (tick.fires ==> Placed(enemySpawners, canSpawn, entry, placed[0]))
                && pendingSpawns == old(pendingSpawns) + QueuedScenes(placed)
    {
      placed := [];
      if currentEnemyCount >= maxEnemyCount {
        return;
      }
      currentEnemySpawnTime := currentEnemySpawnTime + deltaTime;
      if currentEnemySpawnTime < enemySpawnTime {
        return;
      }
      var p := QueueEnemySpawn(entry, canSpawn);
      placed := [p];
      currentEnemySpawnTime := currentEnemySpawnTime - enemySpawnTime;
    }

    /** `UpdatePickupSpawns`: advances the pickup timer and, when it goes off, queues one pickup from the table. */
    method UpdatePickupSpawns(deltaTime: real, entry: Scene, canSpawn: Spawner -> bool) returns (placed: seq<Placement>)
      modifies this`pendingSpawns, this`currentOtherSpawnTime
      ensures var tick := Advance(old(currentOtherSpawnTime), deltaTime, otherSpawnTime);
              && currentOtherSpawnTime == tick.time
              && |placed| == (if tick.fires then 1 else 0)
              && (tick.fires ==> Placed(enemySpawners, canSpawn, entry, placed[0]))
              && pendingSpawns == old(pendingSpawns) + QueuedScenes(placed)
    {
      placed := [];
      currentOtherSpawnTime := currentOtherSpawnTime + deltaTime;
      if currentOtherSpawnTime < otherSpawnTime {
        return;
      }
      var p := QueueSpawn(entry, canSpawn);
      placed := [p];
      currentOtherSpawnTime := currentOtherSpawnTime - otherSpawnTime;
    }

    /**
     * `_Process`: a disabled scheduler does nothing. Otherwise the multiplier
     * grows by its rate times the frame time, the enemy timer advances by the
     * frame time and the pickup timer by the frame time times the new
     * multiplier; each timer places at most one spawn.
     */
    method Process(delta: real, enemyEntry: Scene, otherEntry: Scene, canSpawn: Spawner -> bool)
      returns (placed: seq<Placement>)
      modifies this`spawnMultiplier, this`pendingSpawns, this`currentEnemyCount,
               this`currentEnemySpawnTime, this`currentOtherSpawnTime
      ensures !enabled ==>
                placed == [] && spawnMultiplier == old(spawnMultiplier) && pendingSpawns == old(pendingSpawns)
                && currentEnemyCount == old(currentEnemyCount)
                && currentEnemySpawnTime == old(currentEnemySpawnTime)
                && currentOtherSpawnTime == old(currentOtherSpawnTime)
      ensures enabled ==>
                var enemyFires := old(currentEnemyCount) < maxEnemyCount
                                  && Advance(old(currentEnemySpawnTime), delta, enemySpawnTime).fires;
                var otherFires := Advance(old(currentOtherSpawnTime), delta * spawnMultiplier, otherSpawnTime).fires;
                && spawnMultiplier == old(spawnMultiplier) + spawnMultiplierIncrease * delta
                && currentEnemySpawnTime == (if old(currentEnemyCount) >= maxEnemyCount then old(currentEnemySpawnTime)
                                             else Advance(old(currentEnemySpawnTime), delta, enemySpawnTime).time)
                && currentOtherSpawnTime == Advance(old(currentOtherSpawnTime), delta * spawnMultiplier, otherSpawnTime).time
                && currentEnemyCount == old(currentEnemyCount) + (if enemyFires then 1 else 0)
                && |placed| == (if enemyFires then 1 else 0) + (if otherFires then 1 else 0)
                && (enemyFires ==> Placed(enemySpawners, canSpawn, enemyEntry, placed[0]))
                && (otherFires ==> Placed(enemySpawners, canSpawn, otherEntry, placed[|placed| - 1]))
                && pendingSpawns == old(pendingSpawns) + QueuedScenes(placed)
    {
      placed := [];
      if !enabled {
        return;
      }
      spawnMultiplier := spawnMultiplier + spawnMultiplierIncrease * delta;
      var enemies := UpdateEnemySpawns(delta, enemyEntry, canSpawn);
      var others := UpdatePickupSpawns(delta * spawnMultiplier, otherEntry, canSpawn);
      placed := enemies + others;
      QueuedScenesAppend(enemies, others);
    }
  }

  /** Dropping a rejected draw keeps the candidates a sub-multiset of the spawn points, and every spawn point left out unavailable. */
  lemma RejectKeepsCandidates(spawners: seq<Spawner>, pending: seq<Spawner>, chosen: Spawner, canSpawn: Spawner -> bool)
    requires chosen in pending && !canSpawn(chosen)
    requires multiset(pending) <= multiset(spawners)
    requires forall s :: s in spawners && s !in pending ==> !canSpawn(s)
    ensures multiset(RemoveFirst(pending, chosen)) <= multiset(spawners)
    ensures forall s :: s in spawners && s !in RemoveFirst(pending, chosen) ==> !canSpawn(s)
  {
    var rest := RemoveFirst(pending, chosen);
    RemoveFirstMultiset(pending, chosen);
    forall s | s in pending && s != chosen
      ensures s in rest
    {
      assert multiset(rest)[s] == multiset(pending)[s];
    }
  }
}
